/** The mutator chain of a bulk creation as a plan: what its hooks and checks do, in which order, and what that
    comes to (AccountCreateBulk.Save of backend/ent/account_create.go). */
module BulkPlans {
  /** A hook passes the mutation on and returns what it gets back, or rejects before or after passing it on. */
  datatype Hook = Pass | RejectBefore | RejectAfter

  /** The builders: their hooks, outermost first, and whether they pass check; and the database's reply to the batch. */
  datatype Plan = Plan(hooks: seq<seq<Hook>>, accepts: seq<bool>, inserts: bool)

  datatype Event = Enter(i: nat, h: nat) | Filled(i: nat) | Batch | Done(i: nat) | Leave(i: nat, h: nat)

  ghost predicate Valid(p: Plan) {
    |p.hooks| == |p.accepts|
  }

  /** What happens from hook h of builder i on, and whether it succeeds. */
  function Chain(p: Plan, i: nat, h: nat): (seq<Event>, bool)
    requires Valid(p) && i < |p.hooks| && h <= |p.hooks[i]|
    decreases |p.hooks| - i, |p.hooks[i]| - h
  {
    if h < |p.hooks[i]| then
      if p.hooks[i][h] == RejectBefore then ([Enter(i, h)], false)
      else
        var (inner, ok) := Chain(p, i, h + 1);
        ([Enter(i, h)] + inner + [Leave(i, h)], ok && p.hooks[i][h] == Pass)
    else if !p.accepts[i] then ([], false)
    else
      var (inner, ok) := if i + 1 < |p.hooks| then Chain(p, i + 1, 0) else ([Batch], p.inserts);
      ([Filled(i)] + inner + (if ok then [Done(i)] else []), ok)
  }

  /** What builder i's innermost mutator calls: the next builder's chain, or the batch. */
  function Inner(p: Plan, i: nat): (seq<Event>, bool)
    requires Valid(p) && i < |p.hooks|
  {
    if i + 1 < |p.hooks| then Chain(p, i + 1, 0) else ([Batch], p.inserts)
  }

  // ---------------------------------------------------------------- whether the batch is reached

  /** From hook h of builder i on, no hook rejects before passing on and every check passes. */
  predicate Reaches(p: Plan, i: nat, h: nat)
    requires Valid(p) && i < |p.hooks| && h <= |p.hooks[i]|
  {
    && (forall g :: h <= g < |p.hooks[i]| ==> p.hooks[i][g] != RejectBefore)
    && p.accepts[i]
    && forall k :: i < k < |p.hooks| ==>
         p.accepts[k] && forall g :: 0 <= g < |p.hooks[k]| ==> p.hooks[k][g] != RejectBefore
  }

  /** The batch is reached once builder i has passed its check. */
  predicate Below(p: Plan, i: nat)
    requires Valid(p) && i < |p.hooks|
  {
    i + 1 < |p.hooks| ==> Reaches(p, i + 1, 0)
  }

  /** No hook of builders from i on rejects afterwards. */
  predicate Returns(p: Plan, i: nat)
    requires Valid(p)
  {
    forall k, g :: i <= k < |p.hooks| && 0 <= g < |p.hooks[k]| ==> p.hooks[k][g] != RejectAfter
  }

  predicate HooksReturn(p: Plan, i: nat, h: nat)
    requires Valid(p) && i < |p.hooks|
  {
    forall g :: h <= g < |p.hooks[i]| ==> p.hooks[i][g] != RejectAfter
  }

  /** The chain succeeds exactly when the batch is reached, the database inserts, and no hook rejects afterwards. */
  lemma {:induction false} SucceedsExactly(p: Plan, i: nat, h: nat)
    requires Valid(p) && i < |p.hooks| && h <= |p.hooks[i]|
    ensures Chain(p, i, h).1 <==> Reaches(p, i, h) && p.inserts && Returns(p, i + 1) && HooksReturn(p, i, h)
    decreases |p.hooks| - i, |p.hooks[i]| - h
  {
    if h < |p.hooks[i]| {
      SucceedsExactly(p, i, h + 1);
      assert Reaches(p, i, h) <==> p.hooks[i][h] != RejectBefore && Reaches(p, i, h + 1);
      assert HooksReturn(p, i, h) <==> p.hooks[i][h] != RejectAfter && HooksReturn(p, i, h + 1);
    } else if i + 1 < |p.hooks| {
      SucceedsExactly(p, i + 1, 0);
      assert Reaches(p, i, h) <==> p.accepts[i] && Reaches(p, i + 1, 0);
      assert Returns(p, i + 1) <==> Returns(p, i + 2) && HooksReturn(p, i + 1, 0);
    }
  }

  // ---------------------------------------------------------------- the order of events

  /** Hooks h to the last of builder i entered. */
  function Enters(i: nat, h: nat, n: nat): seq<Event>
    requires h <= n
    decreases n - h
  {
    if h == n then [] else [Enter(i, h)] + Enters(i, h + 1, n)
  }

  function Leaves(i: nat, h: nat, n: nat): seq<Event>
    requires h <= n
    decreases n - h
  {
    if h == n then [] else Leaves(i, h + 1, n) + [Leave(i, h)]
  }

  /** The way down: builders in order, each entering its hooks and filling in its specification. */
  function Descent(p: Plan, i: nat, h: nat): seq<Event>
    requires Valid(p) && i < |p.hooks| && h <= |p.hooks[i]|
    decreases |p.hooks| - i
  {
    Enters(i, h, |p.hooks[i]|) + [Filled(i)] + if i + 1 < |p.hooks| then Descent(p, i + 1, 0) else []
  }

  /** The way up: builders in reverse order, each done if all deeper ones succeeded, then its hooks left. */
  function Ascent(p: Plan, i: nat, h: nat): seq<Event>
    requires Valid(p) && i < |p.hooks| && h <= |p.hooks[i]|
    decreases |p.hooks| - i
  {
    (if i + 1 < |p.hooks| then Ascent(p, i + 1, 0) else [])
    + (if p.inserts && Returns(p, i + 1) then [Done(i)] else [])
    + Leaves(i, h, |p.hooks[i]|)
  }

  lemma Regroup(a: seq<Event>, d: seq<Event>, b: seq<Event>, u: seq<Event>, c: seq<Event>)
    ensures a + (d + b + u) + c == (a + d) + b + (u + c)
  {
  }

  lemma NextReached(p: Plan, i: nat)
    requires Valid(p) && i + 1 < |p.hooks| && Reaches(p, i, |p.hooks[i]|)
    ensures Reaches(p, i + 1, 0)
  {
  }

  /** When the batch is reached, it happens once, between the whole way down and the whole way up. */
  lemma {:induction false} DownBatchUp(p: Plan, i: nat, h: nat)
    requires Valid(p) && i < |p.hooks| && h <= |p.hooks[i]| && Reaches(p, i, h)
    ensures Chain(p, i, h).0 == Descent(p, i, h) + [Batch] + Ascent(p, i, h)
    decreases |p.hooks| - i, |p.hooks[i]| - h
  {
    if h < |p.hooks[i]| {
      DownBatchUp(p, i, h + 1);
      EnterOne(p, i, h);
      Regroup([Enter(i, h)], Descent(p, i, h + 1), [Batch], Ascent(p, i, h + 1), [Leave(i, h)]);
    } else if i + 1 < |p.hooks| {
      NextReached(p, i);
      DownBatchUp(p, i + 1, 0);
      SucceedsExactly(p, i + 1, 0);
      assert Returns(p, i + 1) <==> Returns(p, i + 2) && HooksReturn(p, i + 1, 0);
      FillOne(p, i);
      Regroup([Filled(i)], Descent(p, i + 1, 0), [Batch], Ascent(p, i + 1, 0),
              if p.inserts && Returns(p, i + 1) then [Done(i)] else []);
    } else {
      assert Returns(p, i + 1);
      assert Descent(p, i, h) == [Filled(i)];
    }
  }

  lemma EnterOne(p: Plan, i: nat, h: nat)
    requires Valid(p) && i < |p.hooks| && h < |p.hooks[i]|
    ensures Descent(p, i, h) == [Enter(i, h)] + Descent(p, i, h + 1)
    ensures Ascent(p, i, h) == Ascent(p, i, h + 1) + [Leave(i, h)]
  {
    EnterDown(p, i, h);
    LeaveUp(p, i, h);
  }

  lemma EnterDown(p: Plan, i: nat, h: nat)
    requires Valid(p) && i < |p.hooks| && h < |p.hooks[i]|
    ensures Descent(p, i, h) == [Enter(i, h)] + Descent(p, i, h + 1)
  {
    var below := if i + 1 < |p.hooks| then Descent(p, i + 1, 0) else [];
    FromFront([Enter(i, h)], Enters(i, h + 1, |p.hooks[i]|), [Filled(i)], below);
  }

  lemma LeaveUp(p: Plan, i: nat, h: nat)
    requires Valid(p) && i < |p.hooks| && h < |p.hooks[i]|
    ensures Ascent(p, i, h) == Ascent(p, i, h + 1) + [Leave(i, h)]
  {
    var below := if i + 1 < |p.hooks| then Ascent(p, i + 1, 0) else [];
    var done := if p.inserts && Returns(p, i + 1) then [Done(i)] else [];
    FromBack(below + done, Leaves(i, h + 1, |p.hooks[i]|), [Leave(i, h)]);
  }

  lemma FromFront(a: seq<Event>, b: seq<Event>, c: seq<Event>, d: seq<Event>)
    ensures (a + b) + c + d == a + (b + c + d)
  {
  }

  lemma FromBack(a: seq<Event>, b: seq<Event>, c: seq<Event>)
    ensures a + (b + c) == (a + b) + c
  {
  }

  lemma NothingAround(a: seq<Event>)
    ensures [] + a == a && a + [] == a
  {
  }

  lemma FillOne(p: Plan, i: nat)
    requires Valid(p) && i + 1 < |p.hooks|
    ensures Descent(p, i, |p.hooks[i]|) == [Filled(i)] + Descent(p, i + 1, 0)
    ensures Ascent(p, i, |p.hooks[i]|)
            == Ascent(p, i + 1, 0) + if p.inserts && Returns(p, i + 1) then [Done(i)] else []
  {
    NothingAround([Filled(i)]);
    NothingAround(Ascent(p, i + 1, 0) + if p.inserts && Returns(p, i + 1) then [Done(i)] else []);
  }

  predicate Harmless(e: Event) {
    e != Batch && !e.Done?
  }

  /** When it is not reached, nothing is inserted and no mutation is done. */
  lemma {:induction false} NothingHappens(p: Plan, i: nat, h: nat)
    requires Valid(p) && i < |p.hooks| && h <= |p.hooks[i]| && !Reaches(p, i, h)
    ensures !Chain(p, i, h).1
    ensures forall k :: 0 <= k < |Chain(p, i, h).0| ==> Harmless(Chain(p, i, h).0[k])
    decreases |p.hooks| - i, |p.hooks[i]| - h
  {
    if h < |p.hooks[i]| {
      if p.hooks[i][h] != RejectBefore {
        assert !Reaches(p, i, h + 1);
        NothingHappens(p, i, h + 1);
      }
    } else if p.accepts[i] && i + 1 < |p.hooks| {
      assert !Reaches(p, i + 1, 0);
      NothingHappens(p, i + 1, 0);
    }
  }

  // ---------------------------------------------------------------- all or nothing

  /** Builder j's mutation is done at the end. */
  predicate Completes(p: Plan, j: nat)
    requires Valid(p) && j < |p.hooks|
  {
    Reaches(p, 0, 0) && p.inserts && Returns(p, j + 1)
  }

  /** Either the save succeeds and every mutation is done, or it fails and none is. */
  ghost predicate AllOrNothing(p: Plan)
    requires Valid(p) && |p.hooks| > 0
  {
    forall j :: 0 <= j < |p.hooks| ==> (Completes(p, j) <==> Chain(p, 0, 0).1)
  }

  /** Saving is all-or-nothing unless a hook rejects after rows were inserted. */
  lemma AllOrNothingExact(p: Plan)
    requires Valid(p) && |p.hooks| > 0
    ensures AllOrNothing(p) <==> !(Reaches(p, 0, 0) && p.inserts && !Returns(p, 0))
  {
    SucceedsExactly(p, 0, 0);
    assert Returns(p, 0) <==> Returns(p, 1) && HooksReturn(p, 0, 0);
    var last := |p.hooks| - 1;
    assert Completes(p, last) <==> Reaches(p, 0, 0) && p.inserts;
    if Returns(p, 0) {
      forall j | 0 <= j < |p.hooks|
        ensures Completes(p, j) <==> Chain(p, 0, 0).1
      {
        assert Returns(p, j + 1);
      }
    }
  }

  /** Two builders, the second with a hook that rejects what it gets back: the rows are in the database and the second
      mutation is done, but the first is not, and the save fails. */
  lemma HalfDone()
    ensures var p := Plan([[], [RejectAfter]], [true, true], true);
      Completes(p, 1) && !Completes(p, 0) && !Chain(p, 0, 0).1 && !AllOrNothing(p)
  {
    var p := Plan([[], [RejectAfter]], [true, true], true);
    assert p.hooks[0] == [] && p.hooks[1] == [RejectAfter] && p.hooks[1][0] == RejectAfter;
    assert Reaches(p, 0, 0);
    assert !Returns(p, 1) && Returns(p, 2);
    SucceedsExactly(p, 0, 0);
    assert Completes(p, 1) && !Completes(p, 0);
  }
}
