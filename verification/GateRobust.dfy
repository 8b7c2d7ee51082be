/** The gate's verdict under reordering and repetition of its inputs, and over time. */
module GateRobust {
  import opened Common
  import opened Text
  import opened AuditExceptions
  import opened GateCore
  import opened GateOrder
  import opened AuditReport
  import opened AuditGate

  /** Listing the exceptions in another order does not change the verdict. */
  lemma ExceptionOrderIrrelevant(
      es: seq<Record>, ds: seq<Record>, fs: seq<Finding>, today: int, dates: string -> Option<int>)
    requires multiset(es) == multiset(ds)
    ensures Passes(es, fs, today, dates) <==> Passes(ds, fs, today, dates)
  {
    MapMultiset(es, ds, Checker(dates));
    IndexPermuted(Map(es, Checker(dates)), Map(ds, Checker(dates)));
    PassesByIndex(es, fs, today, dates);
    PassesByIndex(ds, fs, today, dates);
  }

  /** What passes today has passed on every earlier day. */
  lemma PassedEarlier(es: seq<Record>, fs: seq<Finding>, today: int, day: int, dates: string -> Option<int>)
    requires Passes(es, fs, today, dates) && day <= today
    ensures Passes(es, fs, day, dates)
  {
    forall i | 0 <= i < |fs| && IsRelevant(fs[i])
      ensures Excepted(fs[i], es, day, dates)
    {
      assert Excepted(fs[i], es, today, dates);
    }
  }

  /** Every relevant finding is excepted and has the severity its exception names. */
  ghost predicate AllFit(es: seq<Record>, fs: seq<Finding>, today: int, dates: string -> Option<int>) {
    forall f :: f in fs && IsRelevant(f) ==> Excepted(f, es, today, dates) && SeverityNamed(f, es)
  }

  /** Every relevant finding is excepted, and some relevant one of its key has the severity named. */
  ghost predicate SomeFit(es: seq<Record>, fs: seq<Finding>, today: int, dates: string -> Option<int>) {
    forall f :: f in fs && IsRelevant(f) ==> Excepted(f, es, today, dates) && FitsSomewhere(f, es, fs)
  }

  ghost predicate FitsSomewhere(f: Finding, es: seq<Record>, fs: seq<Finding>) {
    exists g :: g in fs && IsRelevant(g) && ToProbe(g).key == ToProbe(f).key && SeverityNamed(g, es)
  }

  lemma ProbesOf(fs: seq<Finding>)
    ensures forall f :: f in fs ==> ToProbe(f) in Map(fs, ToProbe)
    ensures forall p :: p in Map(fs, ToProbe) ==> p.f in fs && ToProbe(p.f) == p
  {
    forall f | f in fs
      ensures ToProbe(f) in Map(fs, ToProbe)
    {
      MapMember(fs, ToProbe, ToProbe(f));
    }
    forall p | p in Map(fs, ToProbe)
      ensures p.f in fs && ToProbe(p.f) == p
    {
      MapMember(fs, ToProbe, p);
    }
  }

  lemma AllFitByIndex(es: seq<Record>, fs: seq<Finding>, today: int, dates: string -> Option<int>)
    requires GoodExceptions(es, dates)
    ensures AllFit(es, fs, today, dates) <==> Strict(Map(fs, ToProbe), IndexOf(Map(es, Checker(dates))), today)
  {
    var ps, index := Map(fs, ToProbe), IndexOf(Map(es, Checker(dates)));
    ProbesOf(fs);
    if AllFit(es, fs, today, dates) {
      forall p | p in ps && p.relevant
        ensures Covered(p, index, today) && SeverityFits(p, index)
      {
        IndexedException(es, dates, p.f, today);
        assert IsRelevant(p.f);
      }
    }
    if Strict(ps, index, today) {
      forall f | f in fs && IsRelevant(f)
        ensures Excepted(f, es, today, dates) && SeverityNamed(f, es)
      {
        IndexedException(es, dates, f, today);
      }
    }
  }

  lemma FitsByIndex(f: Finding, es: seq<Record>, fs: seq<Finding>, today: int, dates: string -> Option<int>)
    requires GoodExceptions(es, dates)
    ensures FitsSomewhere(f, es, fs)
            <==> SomeFits(ToProbe(f), Map(fs, ToProbe), IndexOf(Map(es, Checker(dates))))
  {
    var ps, index := Map(fs, ToProbe), IndexOf(Map(es, Checker(dates)));
    ProbesOf(fs);
    if FitsSomewhere(f, es, fs) {
      var g :| g in fs && IsRelevant(g) && ToProbe(g).key == ToProbe(f).key && SeverityNamed(g, es);
      IndexedException(es, dates, g, today);
      assert ToProbe(g) in ps;
    }
    if SomeFits(ToProbe(f), ps, index) {
      var q :| q in ps && q.relevant && q.key == ToProbe(f).key && SeverityFits(q, index);
      IndexedException(es, dates, q.f, today);
      assert q.f in fs && IsRelevant(q.f);
    }
  }

  lemma SomeFitByIndex(es: seq<Record>, fs: seq<Finding>, today: int, dates: string -> Option<int>)
    requires GoodExceptions(es, dates)
    ensures SomeFit(es, fs, today, dates) <==> Loose(Map(fs, ToProbe), IndexOf(Map(es, Checker(dates))), today)
  {
    var ps, index := Map(fs, ToProbe), IndexOf(Map(es, Checker(dates)));
    ProbesOf(fs);
    forall f | f in fs
      ensures Covered(ToProbe(f), index, today) <==> Excepted(f, es, today, dates)
      ensures SomeFits(ToProbe(f), ps, index) <==> FitsSomewhere(f, es, fs)
      ensures ToProbe(f).relevant == IsRelevant(f)
    {
      IndexedException(es, dates, f, today);
      FitsByIndex(f, es, fs, today, dates);
    }
  }

  lemma SameVerdict(es: seq<Record>, fs: seq<Finding>, gs: seq<Finding>, today: int, dates: string -> Option<int>)
    requires GoodExceptions(es, dates) && multiset(gs) == multiset(fs)
    requires AllFit(es, fs, today, dates) || !SomeFit(es, fs, today, dates)
    ensures Passes(es, gs, today, dates) <==> Passes(es, fs, today, dates)
  {
    AllFitByIndex(es, fs, today, dates);
    SomeFitByIndex(es, fs, today, dates);
    MapMultiset(gs, fs, ToProbe);
    OrderIrrelevant(Map(fs, ToProbe), Map(gs, ToProbe), IndexOf(Map(es, Checker(dates))), today);
    PassesByIndex(es, fs, today, dates);
    PassesByIndex(es, gs, today, dates);
  }

  lemma PassesIsVerdict(
      es: seq<Record>, fs: seq<Finding>, today: int, dates: string -> Option<int>, index: Index)
    requires GoodExceptions(es, dates) && index == IndexOf(Map(es, Checker(dates)))
    ensures Passes(es, fs, today, dates) == Verdict(Map(fs, ToProbe), index, today)
  {
    GoodIsSound(es, dates);
    PassesByIndex(es, fs, today, dates);
  }

  lemma OtherVerdict(es: seq<Record>, fs: seq<Finding>, today: int, dates: string -> Option<int>)
    returns (gs: seq<Finding>)
    requires GoodExceptions(es, dates) && !AllFit(es, fs, today, dates) && SomeFit(es, fs, today, dates)
    ensures multiset(gs) == multiset(fs)
    ensures Passes(es, gs, today, dates) != Passes(es, fs, today, dates)
  {
    AllFitByIndex(es, fs, today, dates);
    SomeFitByIndex(es, fs, today, dates);
    var index := IndexOf(Map(es, Checker(dates)));
    gs := FindingOrderRelevant(fs, ToProbe, index, today);
    PassesIsVerdict(es, fs, today, dates, index);
    PassesIsVerdict(es, gs, today, dates, index);
  }

  /** The gate's verdict does not depend on the order of the findings, exactly when the exceptions are bad
      anyway, or all findings fit, or some key has no fitting finding at all. */
  lemma FindingOrderIrrelevantExactly(
      es: seq<Record>, fs: seq<Finding>, today: int, dates: string -> Option<int>)
    ensures (forall gs: seq<Finding> :: multiset(gs) == multiset(fs) ==>
               (Passes(es, gs, today, dates) <==> Passes(es, fs, today, dates)))
            <==> !GoodExceptions(es, dates) || AllFit(es, fs, today, dates) || !SomeFit(es, fs, today, dates)
  {
    if !GoodExceptions(es, dates) || AllFit(es, fs, today, dates) || !SomeFit(es, fs, today, dates) {
      forall gs: seq<Finding> | multiset(gs) == multiset(fs)
        ensures Passes(es, gs, today, dates) <==> Passes(es, fs, today, dates)
      {
        if GoodExceptions(es, dates) {
          SameVerdict(es, fs, gs, today, dates);
        }
      }
    } else {
      var gs := OtherVerdict(es, fs, today, dates);
    }
  }

  /** Relevant findings with an advisory that share a key report the same severity. */
  ghost predicate OneSeverityPerKey(fs: seq<Finding>) {
    forall f, g :: (f in fs && g in fs && Looked(ToProbe(f)) && Looked(ToProbe(g))
                    && ToProbe(f).key == ToProbe(g).key) ==> ToProbe(f).severity == ToProbe(g).severity
  }

  /** Then the set of seen keys decides nothing: every finding might as well be looked up. */
  lemma SeenKeysDecideNothing(es: seq<Record>, fs: seq<Finding>, today: int, dates: string -> Option<int>)
    requires OneSeverityPerKey(fs)
    ensures Passes(es, fs, today, dates) <==> GoodExceptions(es, dates) && AllFit(es, fs, today, dates)
  {
    if GoodExceptions(es, dates) {
      var ps := Map(fs, ToProbe);
      forall p | p in ps
        ensures p.f in fs && ToProbe(p.f) == p
      {
        MapMember(fs, ToProbe, p);
      }
      SeenIsRedundant(ps, IndexOf(Map(es, Checker(dates))), today);
      AllFitByIndex(es, fs, today, dates);
      PassesByIndex(es, fs, today, dates);
    }
  }

  /** Then neither the order nor the repetition of findings matters. */
  lemma OnlyTheSetOfFindingsMatters(
      es: seq<Record>, fs: seq<Finding>, gs: seq<Finding>, today: int, dates: string -> Option<int>)
    requires OneSeverityPerKey(fs) && forall f :: f in fs <==> f in gs
    ensures Passes(es, fs, today, dates) <==> Passes(es, gs, today, dates)
  {
    SeenKeysDecideNothing(es, fs, today, dates);
    SeenKeysDecideNothing(es, gs, today, dates);
  }

  // ---------------------------------------------------------------- an order that matters

  lemma AlreadyNormal(s: string)
    requires Trimmed(s) && forall i :: 0 <= i < |s| ==> !('A' <= s[i] <= 'Z')
    ensures Strip(s) == s && Lower(Strip(s)) == s
  {
    StripTrimmed(s);
    LowerStays(s);
  }

  const WAIVER: Record := map[
    "package" := "p", "advisory" := "1", "severity" := "high", "mitigation" := "m", "expires_on" := "d"]

  lemma WaiverFields()
    ensures Get(WAIVER, "package") == "p" && Get(WAIVER, "advisory") == "1" && Get(WAIVER, "severity") == "high"
    ensures Get(WAIVER, "mitigation") == "m" && Get(WAIVER, "expires_on") == "d"
  {
    assert "advisory"[0] == 'a' && "severity"[0] == 's' && "mitigation"[0] == 'm' && "expires_on"[0] == 'e';
  }

  lemma WaiverIsGood(dates: string -> Option<int>)
    requires dates("d").Some?
    ensures GoodExceptions([WAIVER], dates)
    ensures ExceptionKey(WAIVER) == ("p", "1") && NormalizeSeverity(Get(WAIVER, "severity")) == "high"
  {
    WaiverFields();
    AlreadyNormal("p");
    AlreadyNormal("1");
    AlreadyNormal("high");
  }

  lemma HighAndCritical(severity: string)
    requires severity == "high" || severity == "critical"
    ensures ToProbe(Finding("p", severity, "1", "t"))
            == Probe(Finding("p", severity, "1", "t"), true, true, ("p", "1"), severity)
  {
    AlreadyNormal("p");
    AlreadyNormal("1");
    AlreadyNormal(severity);
  }

  lemma VerdictOfTwo(p: Probe, q: Probe, index: Index, today: int)
    requires Looked(p) && Looked(q) && p.key == q.key && Covered(p, index, today) && Covered(q, index, today)
    requires SeverityFits(p, index) && !SeverityFits(q, index)
    ensures Verdict([p, q], index, today) && !Verdict([q, p], index, today)
  {
    assert [p, q][0] == p && [p, q][1] == q && !IsFirst([p, q], 1);
    assert [q, p][0] == q && IsFirst([q, p], 0);
  }

  /** The index of one accepted exception. */
  lemma OneEntry(key: Key, x: Exemption)
    ensures IndexOf([Accepted(key, x)]) == map[key := x]
  {
    assert [Accepted(key, x)][..0] == [];
  }

  lemma WaiverIndex(today: int, dates: string -> Option<int>)
    requires dates("d") == Some(today)
    ensures Map([WAIVER], Checker(dates)) == [Accepted(("p", "1"), Exemption("high", today))]
  {
    WaiverFields();
    WaiverIsGood(dates);
    CheckAccepts(WAIVER, dates);
  }

  lemma PairOfProbes(f: Finding, g: Finding)
    ensures Map([f, g], ToProbe) == [ToProbe(f), ToProbe(g)]
  {
  }

  lemma VerdictsDiffer(p: Probe, q: Probe, today: int)
    requires Looked(p) && Looked(q) && p.key == q.key == ("p", "1") && p.severity == "high" && q.severity == "critical"
    ensures var index := map[("p", "1") := Exemption("high", today)];
      Verdict([p, q], index, today) && !Verdict([q, p], index, today)
  {
    assert "high"[0] == 'h' && "critical"[0] == 'c';
    VerdictOfTwo(p, q, map[("p", "1") := Exemption("high", today)], today);
  }

  function Reported(severity: string): Finding {
    Finding("p", severity, "1", "t")
  }

  /** An exception for severity high, and two findings of its key, one high and one critical: the gate passes if the
      high one is reported first, and fails if the critical one is. */
  lemma FindingOrderCanMatter(today: int, dates: string -> Option<int>)
    requires dates("d") == Some(today)
    ensures Passes([WAIVER], [Reported("high"), Reported("critical")], today, dates)
    ensures !Passes([WAIVER], [Reported("critical"), Reported("high")], today, dates)
  {
    var f, g := Reported("high"), Reported("critical");
    var index: Index := map[("p", "1") := Exemption("high", today)];
    HighAndCritical("high");
    HighAndCritical("critical");
    WaiverIsGood(dates);
    WaiverIndex(today, dates);
    OneEntry(("p", "1"), Exemption("high", today));
    PairOfProbes(f, g);
    PairOfProbes(g, f);
    VerdictsDiffer(ToProbe(f), ToProbe(g), today);
    PassesIsVerdict([WAIVER], [f, g], today, dates, index);
    PassesIsVerdict([WAIVER], [g, f], today, dates, index);
  }

  // ---------------------------------------------------------------- entries without an id

  lemma {:induction false} ReportedInTurn(us: seq<Vulnerability>, vs: seq<Vulnerability>)
    ensures FromVulnerabilities(us + vs) == FromVulnerabilities(us) + FromVulnerabilities(vs)
    decreases |vs|
  {
    if vs == [] {
      assert us + vs == us;
    } else {
      var init, last := vs[..|vs| - 1], vs[|vs| - 1];
      assert (us + vs)[..|us + vs| - 1] == us + init;
      ReportedInTurn(us, init);
      AppendAssociates(FromVulnerabilities(us), FromVulnerabilities(init), Map(Ids(last), WithId(last)));
    }
  }

  lemma NothingReported(us: seq<Vulnerability>, v: Vulnerability)
    requires Ids(v) == []
    ensures FromVulnerabilities(us + [v]) == FromVulnerabilities(us)
  {
    assert (us + [v])[..|us|] == us;
    assert Map([], WithId(v)) == [];
  }

  lemma FindingsAre(audit: Audit, vs: seq<Vulnerability>, ws: seq<Vulnerability>)
    requires audit.vulnerabilities == Some(vs) && FromVulnerabilities(vs) == FromVulnerabilities(ws)
    ensures FindingsOf(audit.(vulnerabilities := Some(ws))) == FindingsOf(audit)
  {
  }

  /** A vulnerability without any id does not affect what is decided on, wherever it is listed. */
  lemma SilentAnywhere(audit: Audit, us: seq<Vulnerability>, v: Vulnerability, vs: seq<Vulnerability>)
    requires audit.vulnerabilities == Some(us + vs) && Ids(v) == []
    ensures FindingsOf(audit.(vulnerabilities := Some(us + [v] + vs))) == FindingsOf(audit)
  {
    ReportedInTurn(us, vs);
    ReportedInTurn(us + [v], vs);
    NothingReported(us, v);
    FindingsAre(audit, us + vs, us + [v] + vs);
  }

  /** A critical vulnerability without ids passes, with no exceptions at all. */
  lemma CriticalWithoutIdPasses(today: int, dates: string -> Option<int>)
    ensures Passes([], FindingsOf(Audit(None, Some([Vulnerability("p", "critical", ViaList([]))]))), today, dates)
  {
    var v := Vulnerability("p", "critical", ViaList([]));
    assert Ids(v) == [];
    NothingReported([], v);
    assert [] + [v] == [v];
  }

  /** A high or critical advisory without an id fails the gate, wherever it is listed. */
  lemma NamelessAdvisoryFails(es: seq<Record>, audit: Audit, a: Advisory, today: int, dates: string -> Option<int>)
    requires audit.advisories.Some? && a in audit.advisories.value
    requires IsRelevant(FromAdvisory(a)) && !ToProbe(FromAdvisory(a)).named
    ensures !Passes(es, FindingsOf(audit), today, dates)
  {
    var advisories, fs := audit.advisories.value, FindingsOf(audit);
    var i :| 0 <= i < |advisories| && advisories[i] == a;
    assert fs[i] == FromAdvisory(a);
  }

  // ---------------------------------------------------------------- advisories with an exception

  /** The exception is for the advisory's package and its GitHub id, has not expired, and names its severity or none. */
  ghost predicate Lifts(e: Record, a: Advisory, today: int, dates: string -> Option<int>) {
    && Usable(e, dates) && a.ghsa != "" && Strip(a.ghsa) != ""
    && SameSubject(e["package"], e["advisory"], if a.moduleName != "" then a.moduleName else a.name, a.ghsa)
    && dates(e["expires_on"]).value >= today
    && (Strip(e["severity"]) == "" || SameLetters(Strip(e["severity"]), Strip(a.severity)))
  }

  lemma LiftedIsFound(e: Record, a: Advisory, today: int, dates: string -> Option<int>)
    requires Lifts(e, a, today, dates)
    ensures var f := FromAdvisory(a);
      ToProbe(f).named && Applies(e, f) && InForce(e, today, dates) && NamesSeverity(e, f)
  {
    hide Strip, Lower, SameLetters;
    var f := FromAdvisory(a);
    AdvisoryFound(a);
    assert f.advisory == a.ghsa;
    SevereExactly(f);
    AppliesExactly(e, f, dates);
  }

  lemma OnlyOneApplies(es: seq<Record>, e: Record, d: Record, f: Finding, dates: string -> Option<int>)
    requires GoodExceptions(es, dates) && e in es && d in es && Applies(e, f) && Applies(d, f)
    ensures e == d
  {
    hide ExceptionKey;
    var i :| 0 <= i < |es| && es[i] == e;
    var j :| 0 <= j < |es| && es[j] == d;
  }

  lemma OneFindingMore(es: seq<Record>, us: seq<Finding>, f: Finding, vs: seq<Finding>, today: int,
                       dates: string -> Option<int>)
    requires Passes(es, us + vs, today, dates) && Excepted(f, es, today, dates) && SeverityNamed(f, es)
    ensures Passes(es, us + [f] + vs, today, dates)
  {
    hide Excepted, SeverityNamed, IsRelevant, ToProbe, GoodExceptions;
    var fs, gs := us + [f] + vs, us + vs;
    forall i | 0 <= i < |fs| && IsRelevant(fs[i])
      ensures Excepted(fs[i], es, today, dates) && (FirstOfKey(fs, i) ==> SeverityNamed(fs[i], es))
    {
      if i < |us| {
        assert fs[i] == gs[i];
        assert forall j :: 0 <= j <= i ==> fs[j] == gs[j];
      } else if i > |us| {
        assert fs[i] == gs[i - 1];
        assert forall j :: 0 <= j < i - 1 ==> gs[j] == fs[if j < |us| then j else j + 1];
      }
    }
  }

  lemma AdvisoryInserted(audit: Audit, xs: seq<Advisory>, a: Advisory, ys: seq<Advisory>) returns (rest: seq<Finding>)
    requires audit.advisories == Some(xs + ys)
    ensures FindingsOf(audit) == Map(xs, FromAdvisory) + rest
    ensures FindingsOf(audit.(advisories := Some(xs + [a] + ys))) == Map(xs, FromAdvisory) + [FromAdvisory(a)] + rest
  {
    hide FromAdvisory, FromVulnerabilities;
    var others := if audit.vulnerabilities.Some? then FromVulnerabilities(audit.vulnerabilities.value) else [];
    rest := Map(ys, FromAdvisory) + others;
    MapAppend(xs, ys, FromAdvisory);
    MapAppend(xs + [a], ys, FromAdvisory);
    MapAppend(xs, [a], FromAdvisory);
    assert Map([a], FromAdvisory) == [FromAdvisory(a)];
  }

  /** An advisory whose GitHub id has an exception in force never fails the gate, wherever it is listed and whatever URL
      or CVE it has besides. */
  lemma LiftedAdvisoryPasses(es: seq<Record>, e: Record, audit: Audit, xs: seq<Advisory>, a: Advisory,
                             ys: seq<Advisory>, today: int, dates: string -> Option<int>)
    requires audit.advisories == Some(xs + ys) && e in es && Lifts(e, a, today, dates)
    requires Passes(es, FindingsOf(audit), today, dates)
    ensures Passes(es, FindingsOf(audit.(advisories := Some(xs + [a] + ys))), today, dates)
  {
    hide FindingsOf, FromAdvisory, Passes, Lifts, GoodExceptions, Applies, InForce, NamesSeverity, ToProbe;
    var f := FromAdvisory(a);
    PassesNeedsGood(es, FindingsOf(audit), today, dates);
    LiftedIsFound(e, a, today, dates);
    assert Excepted(f, es, today, dates);
    forall d | d in es && Applies(d, f)
      ensures NamesSeverity(d, f)
    {
      OnlyOneApplies(es, e, d, f, dates);
    }
    assert SeverityNamed(f, es);
    var rest := AdvisoryInserted(audit, xs, a, ys);
    OneFindingMore(es, Map(xs, FromAdvisory), f, rest, today, dates);
  }

  lemma PassesNeedsGood(es: seq<Record>, fs: seq<Finding>, today: int, dates: string -> Option<int>)
    requires Passes(es, fs, today, dates)
    ensures GoodExceptions(es, dates)
  {
  }
}
