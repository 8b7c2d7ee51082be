/** How far the gate's verdict depends on the order and multiplicity of exceptions and findings. */
module GateOrder {
  import opened Common
  import opened GateCore

  // ---------------------------------------------------------------- findings

  /** The verdict without the set of seen keys: every relevant finding must fit its exception. */
  ghost predicate Strict(ps: seq<Probe>, index: Index, today: int) {
    forall p :: p in ps && p.relevant ==> Covered(p, index, today) && SeverityFits(p, index)
  }

  /** Some relevant finding of the same key fits its exception. */
  ghost predicate SomeFits(p: Probe, ps: seq<Probe>, index: Index) {
    exists q :: q in ps && q.relevant && q.key == p.key && SeverityFits(q, index)
  }

  ghost predicate Loose(ps: seq<Probe>, index: Index, today: int) {
    forall p :: p in ps && p.relevant ==> Covered(p, index, today) && SomeFits(p, ps, index)
  }

  lemma StrictPasses(ps: seq<Probe>, index: Index, today: int)
    requires Strict(ps, index, today)
    ensures Verdict(ps, index, today)
  {
  }

  lemma PassIsLoose(ps: seq<Probe>, index: Index, today: int)
    requires Verdict(ps, index, today)
    ensures Loose(ps, index, today)
  {
    forall p | p in ps && p.relevant
      ensures Covered(p, index, today) && SomeFits(p, ps, index)
    {
      var i :| 0 <= i < |ps| && ps[i] == p;
      var j := FirstOf(ps, i);
      assert ps[j] in ps;
    }
  }

  lemma SameElements<T>(s: seq<T>, t: seq<T>)
    requires multiset(s) == multiset(t)
    ensures forall x :: x in s <==> x in t
  {
    forall x
      ensures x in s <==> x in t
    {
      assert x in s <==> x in multiset(s);
      assert x in t <==> x in multiset(t);
    }
  }

  function Fits(index: Index): Probe -> bool {
    (p: Probe) => SeverityFits(p, index)
  }

  function Misfits(index: Index): Probe -> bool {
    (p: Probe) => !SeverityFits(p, index)
  }

  /** The findings with the fitting ones moved to the front. */
  function FittingFirst(ps: seq<Probe>, index: Index): seq<Probe> {
    Filter(ps, Fits(index)) + Filter(ps, Misfits(index))
  }

  lemma FittingFirstIsPermutation(ps: seq<Probe>, index: Index)
    ensures multiset(FittingFirst(ps, index)) == multiset(ps)
  {
    FilterSplits(ps, Fits(index), Misfits(index));
  }

  lemma FittingComesFirst(ps: seq<Probe>, q: Probe, index: Index)
    requires q in ps && SeverityFits(q, index)
    ensures exists j :: 0 <= j < |Filter(ps, Fits(index))| && FittingFirst(ps, index)[j] == q
  {
    var a := Filter(ps, Fits(index));
    FilterKeeps(ps, Fits(index), q);
    var j :| 0 <= j < |a| && a[j] == q;
    assert FittingFirst(ps, index)[j] == q;
  }

  lemma MisfitIsNotFirst(ps: seq<Probe>, i: nat, index: Index, today: int)
    requires Loose(ps, index, today)
    requires |Filter(ps, Fits(index))| <= i < |FittingFirst(ps, index)|
    requires FittingFirst(ps, index)[i].relevant && FittingFirst(ps, index)[i] in ps
    ensures !IsFirst(FittingFirst(ps, index), i)
  {
    var qs, a := FittingFirst(ps, index), Filter(ps, Fits(index));
    var q :| q in ps && q.relevant && q.key == qs[i].key && SeverityFits(q, index);
    FittingComesFirst(ps, q, index);
    var j :| 0 <= j < |a| && qs[j] == q;
    assert Looked(qs[j]);
  }

  /** Fitting findings first: passes whenever any order can. */
  lemma FittingFirstPasses(ps: seq<Probe>, index: Index, today: int)
    requires Loose(ps, index, today)
    ensures Verdict(FittingFirst(ps, index), index, today)
  {
    var qs := FittingFirst(ps, index);
    FittingFirstIsPermutation(ps, index);
    SameElements(ps, qs);
    forall i | 0 <= i < |qs| && qs[i].relevant
      ensures Covered(qs[i], index, today)
      ensures IsFirst(qs, i) ==> SeverityFits(qs[i], index)
    {
      assert qs[i] in qs && qs[i] in ps;
      if i < |Filter(ps, Fits(index))| {
        assert qs[i] == Filter(ps, Fits(index))[i] && Fits(index)(qs[i]);
      } else {
        MisfitIsNotFirst(ps, i, index, today);
      }
    }
  }

  /** A misfitting finding first: fails. */
  lemma MisfitFirstFails(ps: seq<Probe>, k: nat, index: Index, today: int)
    requires k < |ps| && ps[k].relevant && !SeverityFits(ps[k], index)
    ensures multiset([ps[k]] + (ps[..k] + ps[k + 1..])) == multiset(ps)
    ensures !Verdict([ps[k]] + (ps[..k] + ps[k + 1..]), index, today)
  {
    assert ps == ps[..k] + [ps[k]] + ps[k + 1..];
    var qs := [ps[k]] + (ps[..k] + ps[k + 1..]);
    assert qs[0] == ps[k] && IsFirst(qs, 0);
  }

  lemma OrderIrrelevant(ps: seq<Probe>, qs: seq<Probe>, index: Index, today: int)
    requires Strict(ps, index, today) || !Loose(ps, index, today)
    requires multiset(qs) == multiset(ps)
    ensures Verdict(qs, index, today) <==> Verdict(ps, index, today)
  {
    SameElements(ps, qs);
    if Strict(ps, index, today) {
      StrictPasses(ps, index, today);
      StrictPasses(qs, index, today);
    } else {
      LooseIsAboutElements(ps, qs, index, today);
      if Verdict(ps, index, today) { PassIsLoose(ps, index, today); }
      if Verdict(qs, index, today) { PassIsLoose(qs, index, today); }
    }
  }

  lemma LooseIsAboutElements(ps: seq<Probe>, qs: seq<Probe>, index: Index, today: int)
    requires forall p :: p in ps <==> p in qs
    ensures Loose(ps, index, today) <==> Loose(qs, index, today)
  {
    assert forall p :: SomeFits(p, qs, index) <==> SomeFits(p, ps, index);
  }

  lemma OrderRelevant(ps: seq<Probe>, index: Index, today: int) returns (qs: seq<Probe>)
    requires Loose(ps, index, today) && !Strict(ps, index, today)
    ensures multiset(qs) == multiset(ps)
    ensures !(Verdict(qs, index, today) <==> Verdict(ps, index, today))
  {
    var p :| p in ps && p.relevant && !SeverityFits(p, index);
    var k :| 0 <= k < |ps| && ps[k] == p;
    if Verdict(ps, index, today) {
      MisfitFirstFails(ps, k, index, today);
      qs := [ps[k]] + (ps[..k] + ps[k + 1..]);
    } else {
      FittingFirstIsPermutation(ps, index);
      FittingFirstPasses(ps, index, today);
      qs := FittingFirst(ps, index);
    }
  }

  function Original(): Probe -> Finding {
    (p: Probe) => p.f
  }

  /** A reordering of the normalized findings is one of the findings themselves. */
  lemma ReorderedFindings(fs: seq<Finding>, probe: Finding -> Probe, qs: seq<Probe>)
    requires forall f :: probe(f).f == f
    requires multiset(qs) == multiset(Map(fs, probe))
    ensures multiset(Map(qs, Original())) == multiset(fs)
    ensures Map(Map(qs, Original()), probe) == qs
  {
    var ps := Map(fs, probe);
    MapMultiset(qs, ps, Original());
    assert Map(ps, Original()) == fs;
    SameElements(qs, ps);
    forall i | 0 <= i < |qs|
      ensures probe(qs[i].f) == qs[i]
    {
      assert qs[i] in ps;
      MapMember(fs, probe, qs[i]);
    }
  }

  /** In the remaining case there is an order with the other verdict. */
  lemma FindingOrderRelevant(fs: seq<Finding>, probe: Finding -> Probe, index: Index, today: int)
    returns (gs: seq<Finding>)
    requires forall f :: probe(f).f == f
    requires Loose(Map(fs, probe), index, today) && !Strict(Map(fs, probe), index, today)
    ensures multiset(gs) == multiset(fs)
    ensures Verdict(Map(gs, probe), index, today) != Verdict(Map(fs, probe), index, today)
  {
    var qs := OrderRelevant(Map(fs, probe), index, today);
    ReorderedFindings(fs, probe, qs);
    gs := Map(qs, Original());
  }

  /** The order of the findings is irrelevant exactly when all fit their exceptions or some key has none that does. */
  lemma OrderIrrelevantExactly(ps: seq<Probe>, index: Index, today: int)
    ensures (forall qs: seq<Probe> :: multiset(qs) == multiset(ps) ==>
               (Verdict(qs, index, today) <==> Verdict(ps, index, today)))
            <==> Strict(ps, index, today) || !Loose(ps, index, today)
  {
    if Strict(ps, index, today) || !Loose(ps, index, today) {
      forall qs: seq<Probe> | multiset(qs) == multiset(ps)
        ensures Verdict(qs, index, today) <==> Verdict(ps, index, today)
      {
        OrderIrrelevant(ps, qs, index, today);
      }
    } else {
      var qs := OrderRelevant(ps, index, today);
    }
  }

  /** Looked-up findings of one key report one severity. */
  ghost predicate SeveritiesAgree(ps: seq<Probe>) {
    forall p, q :: p in ps && q in ps && Looked(p) && Looked(q) && p.key == q.key ==> p.severity == q.severity
  }

  /** When they agree, remembering the seen keys decides nothing. */
  lemma SeenIsRedundant(ps: seq<Probe>, index: Index, today: int)
    requires SeveritiesAgree(ps)
    ensures Verdict(ps, index, today) <==> Strict(ps, index, today)
  {
    if Verdict(ps, index, today) {
      forall p | p in ps && p.relevant
        ensures Covered(p, index, today) && SeverityFits(p, index)
      {
        var i :| 0 <= i < |ps| && ps[i] == p;
        var j := FirstOf(ps, i);
        assert ps[j] in ps;
      }
    }
  }

  // ---------------------------------------------------------------- exceptions

  lemma {:induction false} TwiceMeansTwoPlaces<T>(s: seq<T>, x: T)
    requires multiset(s)[x] >= 2
    ensures exists i, j :: 0 <= i < j < |s| && s[i] == x && s[j] == x
  {
    assert s == [s[0]] + s[1..];
    if s[0] == x {
      assert multiset(s[1..])[x] >= 1;
      assert x in s[1..];
      var j :| 0 <= j < |s[1..]| && s[1..][j] == x;
      assert s[j + 1] == x;
    } else {
      TwiceMeansTwoPlaces(s[1..], x);
      var i, j :| 0 <= i < j < |s[1..]| && s[1..][i] == x && s[1..][j] == x;
      assert s[i + 1] == x && s[j + 1] == x;
    }
  }

  lemma TwoPlacesMeanTwice<T>(s: seq<T>, i: nat, j: nat)
    requires i < j < |s| && s[i] == s[j]
    ensures multiset(s)[s[i]] >= 2
  {
    assert s == s[..j] + [s[j]] + s[j + 1..];
    assert s[..j][i] == s[i];
    assert s[i] in multiset(s[..j]);
  }

  lemma SoundPermuted(cs: seq<Checked>, ds: seq<Checked>)
    requires multiset(cs) == multiset(ds) && Sound(cs)
    ensures Sound(ds)
  {
    SameElements(cs, ds);
    forall i | 0 <= i < |ds|
      ensures ds[i].Accepted?
    {
      assert ds[i] in cs;
    }
    forall i, j | 0 <= i < j < |ds|
      ensures ds[i].key != ds[j].key
    {
      assert ds[i] in cs && ds[j] in cs;
      if ds[i] == ds[j] {
        TwoPlacesMeanTwice(ds, i, j);
        TwiceMeansTwoPlaces(cs, ds[i]);
      }
    }
  }

  /** Listing the exceptions in another order changes neither their soundness nor the index. */
  lemma IndexPermuted(cs: seq<Checked>, ds: seq<Checked>)
    requires multiset(cs) == multiset(ds)
    ensures Sound(cs) <==> Sound(ds)
    ensures Sound(cs) ==> IndexOf(cs) == IndexOf(ds)
  {
    if Sound(cs) {
      SoundPermuted(cs, ds);
      SoundIndex(cs);
      SoundIndex(ds);
      SameElements(cs, ds);
      var a, b := IndexOf(cs), IndexOf(ds);
      forall k
        ensures k in a <==> k in b
        ensures k in a && k in b ==> a[k] == b[k]
      {
        if k in a { assert Accepted(k, a[k]) in ds; }
        if k in b { assert Accepted(k, b[k]) in cs; }
      }
    }
    if Sound(ds) {
      SoundPermuted(ds, cs);
    }
  }
}
