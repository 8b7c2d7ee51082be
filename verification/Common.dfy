/** Option and Result values, and filtering and mapping of sequences. */
module Common {

  datatype Option<+T> = None | Some(value: T)

  datatype Result<+T, +E> = Ok(value: T) | Err(error: E)

  function Filter<T>(s: seq<T>, p: T -> bool): (r: seq<T>)
    ensures forall i :: 0 <= i < |r| ==> p(r[i])
    ensures |r| <= |s|
  {
    if |s| == 0 then []
    else (if p(s[0]) then [s[0]] else []) + Filter(s[1..], p)
  }

  function Map<T, U>(s: seq<T>, f: T -> U): (r: seq<U>)
    ensures |r| == |s|
    ensures forall i :: 0 <= i < |s| ==> r[i] == f(s[i])
  {
    seq(|s|, i requires 0 <= i < |s| => f(s[i]))
  }

  /** The first n elements, or all of them when no limit is set. */
  function Take<T>(s: seq<T>, limit: Option<nat>): (r: seq<T>)
    ensures r <= s
  {
    if limit.Some? && limit.value < |s| then s[..limit.value] else s
  }

  ghost predicate Distinct<T>(s: seq<T>) {
    forall i, j :: 0 <= i < j < |s| ==> s[i] != s[j]
  }

  function SetOf(ids: seq<int>): set<int> {
    set id | id in ids
  }

  lemma SetOfSnoc(ids: seq<int>, i: nat)
    requires i < |ids|
    ensures SetOf(ids[..i + 1]) == SetOf(ids[..i]) + {ids[i]}
  {
    TakeSnoc(ids, i);
  }

  lemma AppendAssociates<T>(s: seq<T>, t: seq<T>, u: seq<T>)
    ensures s + t + u == s + (t + u)
  {
  }

  lemma DistinctSnoc<T>(s: seq<T>, x: T)
    requires Distinct(s) && x !in s
    ensures Distinct(s + [x])
    ensures forall y :: y in s + [x] <==> y in s || y == x
  {
  }

  lemma TakeSnoc<T>(s: seq<T>, k: nat)
    requires k < |s|
    ensures s[..k + 1] == s[..k] + [s[k]]
  {
  }

  lemma {:induction false} FilterAppend<T>(s: seq<T>, t: seq<T>, p: T -> bool)
    ensures Filter(s + t, p) == Filter(s, p) + Filter(t, p)
  {
    if |s| == 0 {
      assert s + t == t;
    } else {
      assert (s + t)[1..] == s[1..] + t;
      FilterAppend(s[1..], t, p);
    }
  }

  lemma {:induction false} FilterKeeps<T>(s: seq<T>, p: T -> bool, x: T)
    requires x in s && p(x)
    ensures x in Filter(s, p)
  {
    if s[0] != x {
      FilterKeeps(s[1..], p, x);
    }
  }

  lemma {:induction false} FilterFrom<T>(s: seq<T>, p: T -> bool)
    ensures forall x :: x in Filter(s, p) ==> x in s
  {
    if |s| != 0 {
      FilterFrom(s[1..], p);
    }
  }

  lemma FilterHolds<T>(s: seq<T>, p: T -> bool, x: T)
    requires x in Filter(s, p)
    ensures x in s && p(x)
  {
    FilterFrom(s, p);
    var i :| 0 <= i < |Filter(s, p)| && Filter(s, p)[i] == x;
  }

  lemma FilterMember<T>(s: seq<T>, p: T -> bool, x: T)
    ensures x in Filter(s, p) <==> x in s && p(x)
  {
    if x in Filter(s, p) {
      FilterHolds(s, p, x);
    } else if x in s && p(x) {
      FilterKeeps(s, p, x);
    }
  }

  lemma FilterEmpty<T>(s: seq<T>, p: T -> bool)
    requires Filter(s, p) == []
    ensures forall i :: 0 <= i < |s| ==> !p(s[i])
  {
    forall i | 0 <= i < |s|
      ensures !p(s[i])
    {
      if p(s[i]) {
        FilterKeeps(s, p, s[i]);
      }
    }
  }

  lemma FilterSnoc<T>(s: seq<T>, x: T, p: T -> bool)
    ensures Filter(s + [x], p) == Filter(s, p) + (if p(x) then [x] else [])
  {
    FilterAppend(s, [x], p);
    assert Filter([x], p) == if p(x) then [x] else [];
  }

  lemma {:induction false} FilterSame<T>(s: seq<T>, p: T -> bool, q: T -> bool)
    requires forall x :: x in s ==> p(x) == q(x)
    ensures Filter(s, p) == Filter(s, q)
  {
    if |s| != 0 {
      assert forall x :: x in s[1..] ==> x in s;
      FilterSame(s[1..], p, q);
    }
  }

  /** Two filters in a row are one filter r with both conditions. */
  lemma {:induction false} FilterTwice<T>(s: seq<T>, p: T -> bool, q: T -> bool, r: T -> bool)
    requires forall x :: x in s ==> (r(x) <==> p(x) && q(x))
    ensures Filter(Filter(s, p), q) == Filter(s, r)
  {
    if |s| != 0 {
      assert forall x :: x in s[1..] ==> x in s;
      FilterTwice(s[1..], p, q, r);
      FilterAppend(if p(s[0]) then [s[0]] else [], Filter(s[1..], p), q);
    }
  }

  lemma {:induction false} FilterOfMap<T, U>(s: seq<T>, f: T -> U, p: U -> bool, q: T -> bool)
    requires forall x :: x in s ==> p(f(x)) == q(x)
    ensures Filter(Map(s, f), p) == Map(Filter(s, q), f)
  {
    if |s| == 0 {
      assert Map(s, f) == [];
    } else {
      var t := s[1..];
      assert Map(s, f)[1..] == Map(t, f);
      assert Map(s, f)[0] == f(s[0]);
      assert p(f(s[0])) == q(s[0]);
      FilterOfMap(t, f, p, q) by {
        assert forall x :: x in t ==> x in s;
      }
      MapHead(s[0], Filter(t, q), f);
    }
  }

  lemma MapSame<T, U>(s: seq<T>, f: T -> U, g: T -> U)
    requires forall i :: 0 <= i < |s| ==> f(s[i]) == g(s[i])
    ensures Map(s, f) == Map(s, g)
  {
  }

  /** Filtering what a map yields, when filter and map can be told apart on the arguments. */
  lemma FilterThenMap<T(!new), U>(s: seq<T>, f: T -> U, g: T -> U, p: U -> bool, q: T -> bool)
    requires forall x :: f(x) == g(x) && p(f(x)) == q(x)
    ensures Filter(Map(s, f), p) == Map(Filter(s, q), g)
  {
    FilterOfMap(s, f, p, q);
    MapSame(Filter(s, q), f, g);
  }

  lemma MapSplit<T, U>(s: seq<T>, f: T -> U)
    requires |s| > 0
    ensures Map(s, f) == [f(s[0])] + Map(s[1..], f)
  {
  }

  lemma MapMember<T, U>(s: seq<T>, f: T -> U, y: U)
    ensures y in Map(s, f) <==> exists x :: x in s && f(x) == y
  {
    if y in Map(s, f) {
      var i :| 0 <= i < |s| && Map(s, f)[i] == y;
      assert s[i] in s;
    }
    if x :| x in s && f(x) == y {
      var i :| 0 <= i < |s| && s[i] == x;
      assert Map(s, f)[i] == y;
    }
  }

  lemma MapHead<T, U>(x: T, s: seq<T>, f: T -> U)
    ensures Map([x] + s, f) == [f(x)] + Map(s, f)
  {
  }

  lemma {:induction false} FilterNone<T>(s: seq<T>, p: T -> bool)
    requires forall x :: x in s ==> !p(x)
    ensures Filter(s, p) == []
  {
    if |s| != 0 {
      assert forall x :: x in s[1..] ==> x in s;
      FilterNone(s[1..], p);
    }
  }

  lemma {:induction false} FilterAll<T>(s: seq<T>, p: T -> bool)
    requires forall x :: x in s ==> p(x)
    ensures Filter(s, p) == s
  {
    if |s| != 0 {
      assert forall x :: x in s[1..] ==> x in s;
      FilterAll(s[1..], p);
      assert s == [s[0]] + s[1..];
    }
  }

  ghost predicate Increasing(places: seq<nat>) {
    forall i, j :: 0 <= i < j < |places| ==> places[i] < places[j]
  }

  /** The places of the elements that a filter keeps. */
  ghost predicate KeptAt<T>(s: seq<T>, p: T -> bool, kept: seq<T>, places: seq<nat>) {
    && |places| == |kept| && Increasing(places)
    && (forall i :: 0 <= i < |kept| ==> places[i] < |s| && s[places[i]] == kept[i])
    && (forall k: nat :: k < |s| && p(s[k]) ==> k in places)
  }

  lemma {:induction false} FilterPlaces<T>(s: seq<T>, p: T -> bool) returns (places: seq<nat>)
    ensures KeptAt(s, p, Filter(s, p), places)
    decreases |s|
  {
    if s == [] {
      places := [];
    } else {
      var init, last := s[..|s| - 1], s[|s| - 1];
      assert s == init + [last];
      FilterSnoc(init, last, p);
      places := FilterPlaces(init, p);
      if p(last) {
        places := places + [|init|];
      }
    }
  }

  lemma AddToEither<T>(a: multiset<T>, b: multiset<T>, c: multiset<T>, x: T)
    requires a + b == c
    ensures a + multiset{x} + b == c + multiset{x}
    ensures a + (b + multiset{x}) == c + multiset{x}
  {
  }

  /** Two complementary filters split the elements. */
  lemma {:induction false} FilterSplits<T>(s: seq<T>, p: T -> bool, q: T -> bool)
    requires forall x :: q(x) == !p(x)
    ensures multiset(Filter(s, p)) + multiset(Filter(s, q)) == multiset(s)
  {
    if |s| != 0 {
      var init, x := s[..|s| - 1], s[|s| - 1];
      FilterSplits(init, p, q);
      AddToEither(multiset(Filter(init, p)), multiset(Filter(init, q)), multiset(init), x);
      SnocCounts(init, x);
      SnocCounts(Filter(init, p), x);
      SnocCounts(Filter(init, q), x);
      assert s == init + [x];
      FilterSnoc(init, x, p);
      FilterSnoc(init, x, q);
      if p(x) {
        assert Filter(s, q) == Filter(init, q);
      } else {
        assert q(x);
        assert Filter(s, p) == Filter(init, p);
      }
    }
  }

  lemma SnocCounts<T>(s: seq<T>, x: T)
    ensures multiset(s + [x]) == multiset(s) + multiset{x}
  {
  }

  function Without<T>(s: seq<T>, k: nat): seq<T>
    requires k < |s|
  {
    s[..k] + s[k + 1..]
  }

  lemma WithoutCounts<T>(s: seq<T>, k: nat)
    requires k < |s|
    ensures multiset(s) == multiset{s[k]} + multiset(Without(s, k))
  {
    assert s == s[..k] + [s[k]] + s[k + 1..];
  }

  lemma MapWithout<T, U>(s: seq<T>, k: nat, f: T -> U)
    requires k < |s|
    ensures Map(Without(s, k), f) == Without(Map(s, f), k)
  {
  }

  lemma {:induction false} MapMultiset<T, U>(s: seq<T>, t: seq<T>, f: T -> U)
    requires multiset(s) == multiset(t)
    ensures multiset(Map(s, f)) == multiset(Map(t, f))
  {
    if |s| == 0 {
      assert |multiset(t)| == 0;
    } else {
      assert s[0] in multiset(t);
      var k :| 0 <= k < |t| && t[k] == s[0];
      WithoutCounts(s, 0);
      WithoutCounts(t, k);
      var a, b := multiset(Without(s, 0)), multiset(Without(t, k));
      assert a == multiset(s) - multiset{s[0]} && b == multiset(t) - multiset{s[0]};
      MapMultiset(Without(s, 0), Without(t, k), f);
      MapWithout(s, 0, f);
      MapWithout(t, k, f);
      WithoutCounts(Map(s, f), 0);
      WithoutCounts(Map(t, f), k);
    }
  }

  lemma {:induction false} FilterDistinct<T>(s: seq<T>, p: T -> bool)
    requires Distinct(s)
    ensures Distinct(Filter(s, p))
  {
    if |s| != 0 {
      var rest := Filter(s[1..], p);
      FilterDistinct(s[1..], p);
      FilterFrom(s[1..], p);
      forall i | 0 <= i < |rest|
        ensures rest[i] != s[0]
      {
        assert rest[i] in s[1..];
      }
    }
  }

  lemma MapAppend<T, U>(s: seq<T>, t: seq<T>, f: T -> U)
    ensures Map(s + t, f) == Map(s, f) + Map(t, f)
  {
  }

  /** k applications of a step that may fail, each fed with the previous result. */
  function Iterate<T, E>(step: T -> Result<T, E>, t: T, k: nat): Result<T, E>
    decreases k
  {
    if k == 0 then Ok(t)
    else match step(t)
         case Err(e) => Err(e)
         case Ok(u) => Iterate(step, u, k - 1)
  }

  function Orbit<V>(next: V -> V, v: V, k: nat): V
    decreases k
  {
    if k == 0 then v else Orbit(next, next(v), k - 1)
  }

  /** The first k values of the orbit all allow a step. */
  predicate Allowed<V>(next: V -> V, allow: V -> bool, v: V, k: nat)
    decreases k
  {
    k == 0 || (allow(v) && Allowed(next, allow, next(v), k - 1))
  }

  /** If the step shows the next value while the current one allows it, and fails otherwise,
      then k steps show the k-th value, or fail at the first value that does not allow one. */
  lemma {:induction false} IterateShowsOrbit<V(!new), T, E>(
      step: T -> Result<T, E>, show: V -> T, next: V -> V, allow: V -> bool, e: E, v: V, k: nat)
    requires forall w :: step(show(w)) == if allow(w) then Ok(show(next(w))) else Err(e)
    ensures Iterate(step, show(v), k)
            == if Allowed(next, allow, v, k) then Ok(show(Orbit(next, v, k))) else Err(e)
    decreases k
  {
    if k != 0 {
      assert step(show(v)) == if allow(v) then Ok(show(next(v))) else Err(e);
      IterateShowsOrbit(step, show, next, allow, e, next(v), k - 1);
    }
  }

  function SumTo(n: nat, f: nat -> nat): nat {
    if n == 0 then 0 else SumTo(n - 1, f) + f(n - 1)
  }

  lemma {:induction false} SumToSame(n: nat, f: nat -> nat, g: nat -> nat)
    requires forall i: nat :: i < n ==> g(i) == f(i)
    ensures SumTo(n, g) == SumTo(n, f)
  {
    if n != 0 {
      SumToSame(n - 1, f, g);
    }
  }

  lemma {:induction false} SumToBump(n: nat, f: nat -> nat, g: nat -> nat, k: nat)
    requires k < n && forall i: nat :: i < n ==> g(i) == f(i) + if i == k then 1 else 0
    ensures SumTo(n, g) == SumTo(n, f) + 1
  {
    if k == n - 1 {
      SumToSame(n - 1, f, g);
    } else {
      SumToBump(n - 1, f, g, k);
    }
  }

  lemma {:induction false} SumToZero(n: nat, f: nat -> nat)
    requires forall i: nat :: i < n ==> f(i) == 0
    ensures SumTo(n, f) == 0
  {
    if n != 0 {
      SumToZero(n - 1, f);
    }
  }
}
