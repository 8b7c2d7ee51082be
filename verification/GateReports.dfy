/** What the gate reports, error by error (main of tools/check_pnpm_audit_exceptions.py). */
module GateReports {
  import opened Common
  import opened Text
  import opened AuditExceptions
  import opened GateCore
  import opened AuditGate

  // ---------------------------------------------------------------- on normalized values

  ghost predicate Nameless(ps: seq<Probe>, f: Finding, i: int) {
    0 <= i < |ps| && ps[i].relevant && !ps[i].named && ps[i].f == f
  }

  ghost predicate Mismatched(ps: seq<Probe>, index: Index, f: Finding, s: string, i: int) {
    Leads(ps, i) && ps[i].f == f && !SeverityFits(ps[i], index) && s == index[ps[i].key].severity
  }

  ghost predicate IsLookupError(ps: seq<Probe>, index: Index, e: GateError) {
    match e
    case MissingAdvisory(f) => exists i :: Nameless(ps, f, i)
    case SeverityMismatch(f, s) => exists i :: Mismatched(ps, index, f, s, i)
    case _ => false
  }

  lemma NamelessGrows(init: seq<Probe>, p: Probe, f: Finding)
    ensures (exists i :: Nameless(init + [p], f, i))
            <==> (exists i :: Nameless(init, f, i)) || (p.relevant && !p.named && p.f == f)
  {
    var ps := init + [p];
    if i :| Nameless(ps, f, i) {
      assert i < |init| ==> Nameless(init, f, i);
    }
    if i :| Nameless(init, f, i) {
      assert Nameless(ps, f, i);
    }
    if p.relevant && !p.named && p.f == f {
      assert Nameless(ps, f, |init|);
    }
  }

  ghost predicate MismatchesNow(init: seq<Probe>, p: Probe, index: Index, f: Finding, s: string) {
    && Looked(p) && p.key !in Keys(Firsts(init)) && p.f == f
    && !SeverityFits(p, index) && s == index[p.key].severity
  }

  lemma MismatchedGrows(init: seq<Probe>, p: Probe, index: Index, f: Finding, s: string)
    ensures (exists i :: Mismatched(init + [p], index, f, s, i))
            <==> (exists i :: Mismatched(init, index, f, s, i)) || MismatchesNow(init, p, index, f, s)
  {
    hide SeverityFits, Firsts;
    var ps := init + [p];
    LeadsGrow(init, p, |init|);
    if i :| Mismatched(ps, index, f, s, i) {
      LeadsGrow(init, p, i);
      assert i < |init| ==> Mismatched(init, index, f, s, i);
    }
    if i :| Mismatched(init, index, f, s, i) {
      LeadsGrow(init, p, i);
      assert Mismatched(ps, index, f, s, i);
    }
    if MismatchesNow(init, p, index, f, s) {
      assert Mismatched(ps, index, f, s, |init|);
    }
  }

  lemma {:induction false} LookupErrorsExactly(ps: seq<Probe>, index: Index, e: GateError)
    ensures e in LookupErrors(ps, index) <==> IsLookupError(ps, index, e)
    decreases |ps|
  {
    hide IsFirst, Firsts, Keys, Nameless, Mismatched;
    if ps != [] {
      var init, p := ps[..|ps| - 1], ps[|ps| - 1];
      assert ps == init + [p];
      LookupErrorsExactly(init, index, e);
      match e {
        case MissingAdvisory(f) => NamelessGrows(init, p, f);
        case SeverityMismatch(f, s) => MismatchedGrows(init, p, index, f, s);
        case _ =>
      }
    } else {
      NothingToReport(index, e);
    }
  }

  lemma NothingToReport(index: Index, e: GateError)
    ensures !IsLookupError([], index, e)
  {
  }

  lemma MissingExactly(ps: seq<Probe>, index: Index, f: Finding)
    ensures MissingException(f) in Map(Filter(Firsts(ps), Unexempted(index)), ToMissing())
            <==> exists i :: Leads(ps, i) && ps[i].f == f && ps[i].key !in index
  {
    hide IsFirst, Firsts;
    var kept := Filter(Firsts(ps), Unexempted(index));
    MapMember(kept, ToMissing(), MissingException(f));
    FirstsExact(ps);
    if MissingException(f) in Map(kept, ToMissing()) {
      var p :| p in kept && ToMissing()(p) == MissingException(f);
      FilterMember(Firsts(ps), Unexempted(index), p);
      var i :| Leads(ps, i) && ps[i] == p;
    }
    if i :| Leads(ps, i) && ps[i].f == f && ps[i].key !in index {
      FilterMember(Firsts(ps), Unexempted(index), ps[i]);
      assert ToMissing()(ps[i]) == MissingException(f);
    }
  }

  lemma ExpiredExactly(ps: seq<Probe>, index: Index, today: int, f: Finding, d: int)
    ensures ExpiredException(f, d) in Map(Filter(Firsts(ps), Late(index, today)), ToExpired(index))
            <==> exists i :: Leads(ps, i) && ps[i].f == f && ps[i].key in index
                             && index[ps[i].key].expiresOn == d && d < today
  {
    hide IsFirst, Firsts;
    var kept := Filter(Firsts(ps), Late(index, today));
    MapMember(kept, ToExpired(index), ExpiredException(f, d));
    FirstsExact(ps);
    if ExpiredException(f, d) in Map(kept, ToExpired(index)) {
      var p :| p in kept && ToExpired(index)(p) == ExpiredException(f, d);
      FilterMember(Firsts(ps), Late(index, today), p);
      var i :| Leads(ps, i) && ps[i] == p;
    }
    if i :| Leads(ps, i) && ps[i].f == f && ps[i].key in index && index[ps[i].key].expiresOn == d && d < today {
      FilterMember(Firsts(ps), Late(index, today), ps[i]);
      assert ToExpired(index)(ps[i]) == ExpiredException(f, d);
    }
  }

  lemma InSections(cs: seq<Checked>, ps: seq<Probe>, today: int, e: GateError)
    requires Sound(cs)
    ensures var index := IndexOf(cs);
      e in Report(cs, ps, today) <==>
      || e in LookupErrors(ps, index)
      || e in Section(MissingExceptionsHeader, Map(Filter(Firsts(ps), Unexempted(index)), ToMissing()))
      || e in Section(ExpiredHeader, Map(Filter(Firsts(ps), Late(index, today)), ToExpired(index)))
  {
    hide Section, LookupErrors, Firsts;
    SilentIndex(cs);
  }

  lemma ItemInSection(header: GateError, items: seq<GateError>, e: GateError)
    requires e != header
    ensures e in Section(header, items) <==> e in items
  {
  }

  lemma {:induction false} MissingOnly(ps: seq<Probe>, e: GateError)
    requires !e.MissingException?
    ensures e !in Map(ps, ToMissing())
  {
    MapMember(ps, ToMissing(), e);
  }

  lemma {:induction false} ExpiredOnly(ps: seq<Probe>, index: Index, e: GateError)
    requires !e.ExpiredException?
    ensures e !in Map(ps, ToExpired(index))
  {
    MapMember(ps, ToExpired(index), e);
  }

  /** On sound exceptions, what is reported of each kind. */
  lemma ReportedByKind(cs: seq<Checked>, ps: seq<Probe>, today: int, e: GateError)
    requires Sound(cs) && e != MissingExceptionsHeader && e != ExpiredHeader
    ensures var index := IndexOf(cs);
      e in Report(cs, ps, today) <==>
      match e
      case MissingException(f) => exists i :: Leads(ps, i) && ps[i].f == f && ps[i].key !in index
      case ExpiredException(f, d) => exists i :: Leads(ps, i) && ps[i].f == f && ps[i].key in index
                                                 && index[ps[i].key].expiresOn == d && d < today
      case _ => IsLookupError(ps, index, e)
  {
    hide Report, Section, LookupErrors, Firsts, IsFirst, Sound, IndexOf;
    var index := IndexOf(cs);
    var missing, late := Filter(Firsts(ps), Unexempted(index)), Filter(Firsts(ps), Late(index, today));
    InSections(cs, ps, today, e);
    ItemInSection(MissingExceptionsHeader, Map(missing, ToMissing()), e);
    ItemInSection(ExpiredHeader, Map(late, ToExpired(index)), e);
    LookupErrorsExactly(ps, index, e);
    if e.MissingException? {
      MissingExactly(ps, index, e.f);
      ExpiredOnly(late, index, e);
    } else if e.ExpiredException? {
      ExpiredExactly(ps, index, today, e.f, e.expiresOn);
      MissingOnly(missing, e);
    } else {
      MissingOnly(missing, e);
      ExpiredOnly(late, index, e);
    }
  }

  // ---------------------------------------------------------------- on the texts

  /** Finding i is severe, names an advisory, and is the first of its subject. */
  ghost predicate Heads(fs: seq<Finding>, f: Finding, i: int) {
    0 <= i < |fs| && fs[i] == f && Severe(f) && Strip(f.advisory) != "" && ComesFirst(fs, i)
  }

  lemma LeadsExactly(fs: seq<Finding>, f: Finding, i: int)
    ensures Leads(Map(fs, ToProbe), i) && Map(fs, ToProbe)[i].f == f <==> Heads(fs, f, i)
  {
    hide IsFirst, FirstOfKey, ComesFirst, Severe, Strip;
    if 0 <= i < |fs| {
      SevereExactly(fs[i]);
      FirstInOrder(fs, i);
      FirstExactly(fs, i);
      SameFinding(fs[i]);
    }
  }

  lemma SameFinding(f: Finding)
    ensures ToProbe(f).f == f
  {
  }

  lemma EntryIndexed(es: seq<Record>, dates: string -> Option<int>, i: nat)
    requires GoodExceptions(es, dates) && i < |es|
    ensures var index, k := IndexOf(Map(es, Checker(dates))), ExceptionKey(es[i]);
      && k in index && Some(index[k].expiresOn) == dates(Get(es[i], "expires_on"))
      && index[k].severity == Lower(Strip(Get(es[i], "severity")))
  {
    hide ExceptionKey, Strip, Lower, Check;
    var cs := Map(es, Checker(dates));
    GoodIsSound(es, dates);
    SoundIndex(cs);
    CheckAccepts(es[i], dates);
    assert cs[i] == Check(es[i], dates) && cs[i] in cs;
  }

  lemma IndexedEntry(es: seq<Record>, dates: string -> Option<int>, k: Key) returns (i: nat)
    requires GoodExceptions(es, dates) && k in IndexOf(Map(es, Checker(dates)))
    ensures i < |es| && ExceptionKey(es[i]) == k
  {
    hide ExceptionKey, Check;
    var cs := Map(es, Checker(dates));
    var index := IndexOf(cs);
    GoodIsSound(es, dates);
    SoundIndex(cs);
    assert Accepted(k, index[k]) in cs;
    i :| 0 <= i < |cs| && cs[i] == Accepted(k, index[k]);
    CheckAccepts(es[i], dates);
  }

  lemma AppliesToGood(es: seq<Record>, dates: string -> Option<int>, f: Finding)
    requires GoodExceptions(es, dates)
    ensures forall e :: e in es ==> (ExceptionKey(e) == ToProbe(f).key <==> IsFor(e, f, dates))
  {
    hide ExceptionKey, ToProbe, IsFor, Usable, Good;
    forall e | e in es
      ensures ExceptionKey(e) == ToProbe(f).key <==> IsFor(e, f, dates)
    {
      var i :| 0 <= i < |es| && es[i] == e;
      UsableExactly(e, dates);
      AppliesExactly(e, f, dates);
    }
  }

  /** The exception of a finding in the index. */
  lemma IndexedFor(es: seq<Record>, dates: string -> Option<int>, f: Finding)
    requires GoodExceptions(es, dates)
    ensures var index, k := IndexOf(Map(es, Checker(dates))), ToProbe(f).key;
      && (k in index <==> exists e :: e in es && IsFor(e, f, dates))
      && (forall e :: e in es && IsFor(e, f, dates) ==>
            k in index && Some(index[k].expiresOn) == dates(Get(e, "expires_on"))
            && index[k].severity == Lower(Strip(Get(e, "severity"))))
  {
    hide ExceptionKey, ToProbe, IsFor, Strip, Lower, IndexOf, GoodExceptions;
    var index, k := IndexOf(Map(es, Checker(dates))), ToProbe(f).key;
    AppliesToGood(es, dates, f);
    if k in index {
      var i := IndexedEntry(es, dates, k);
      assert es[i] in es;
    }
    forall e | e in es && IsFor(e, f, dates)
      ensures k in index && Some(index[k].expiresOn) == dates(Get(e, "expires_on"))
              && index[k].severity == Lower(Strip(Get(e, "severity")))
    {
      var i :| 0 <= i < |es| && es[i] == e;
      EntryIndexed(es, dates, i);
    }
  }

  /** With usable exceptions for subjects of their own, the gate reports: a severe finding without an advisory; the
      first finding of a subject without an exception; one whose exception has expired, with the day; and one whose
      exception names another severity, with that. */
  lemma ReportsExactly(es: seq<Record>, fs: seq<Finding>, today: int, dates: string -> Option<int>, f: Finding, d: int,
                       s: string)
    requires GoodExceptions(es, dates)
    ensures var errors := Report(Map(es, Checker(dates)), Map(fs, ToProbe), today);
      && (MissingAdvisory(f) in errors <==> f in fs && Severe(f) && Strip(f.advisory) == "")
      && (MissingException(f) in errors <==>
          (exists i :: Heads(fs, f, i)) && !exists e :: e in es && IsFor(e, f, dates))
      && (ExpiredException(f, d) in errors <==>
          (exists i :: Heads(fs, f, i))
          && exists e :: e in es && IsFor(e, f, dates) && dates(Get(e, "expires_on")) == Some(d) && d < today)
      && (SeverityMismatch(f, s) in errors <==>
          (exists i :: Heads(fs, f, i))
          && exists e :: e in es && IsFor(e, f, dates) && s == Lower(Strip(Get(e, "severity"))) && s != ""
                         && s != Lower(Strip(f.severity)))
  {
    NamelessReported(es, fs, today, dates, f);
    MissingReported(es, fs, today, dates, f);
    ExpiredReported(es, fs, today, dates, f, d);
    MismatchReported(es, fs, today, dates, f, s);
  }

  lemma NamelessReported(es: seq<Record>, fs: seq<Finding>, today: int, dates: string -> Option<int>, f: Finding)
    requires GoodExceptions(es, dates)
    ensures MissingAdvisory(f) in Report(Map(es, Checker(dates)), Map(fs, ToProbe), today)
            <==> f in fs && Severe(f) && Strip(f.advisory) == ""
  {
    hide Severe, Strip, Lower, ToProbe, Report, Sound;
    var ps := Map(fs, ToProbe);
    GoodIsSound(es, dates);
    ReportedByKind(Map(es, Checker(dates)), ps, today, MissingAdvisory(f));
    SevereExactly(f);
    SameFinding(f);
    if i :| Nameless(ps, f, i) {
      SameFinding(fs[i]);
    }
    if f in fs && Severe(f) && Strip(f.advisory) == "" {
      var i :| 0 <= i < |fs| && fs[i] == f;
      assert Nameless(ps, f, i);
    }
  }

  lemma MissingReported(es: seq<Record>, fs: seq<Finding>, today: int, dates: string -> Option<int>, f: Finding)
    requires GoodExceptions(es, dates)
    ensures MissingException(f) in Report(Map(es, Checker(dates)), Map(fs, ToProbe), today)
            <==> (exists i :: Heads(fs, f, i)) && !exists e :: e in es && IsFor(e, f, dates)
  {
    hide Report, Sound, IsFirst, Heads, IsFor, IndexOf, ToProbe;
    var ps := Map(fs, ToProbe);
    GoodIsSound(es, dates);
    ReportedByKind(Map(es, Checker(dates)), ps, today, MissingException(f));
    IndexedFor(es, dates, f);
    HeadsLead(fs, f);
  }

  lemma HeadsLead(fs: seq<Finding>, f: Finding)
    ensures var ps := Map(fs, ToProbe);
      forall i ::
        && (Leads(ps, i) && ps[i].f == f <==> Heads(fs, f, i))
        && (Heads(fs, f, i) ==> 0 <= i < |ps| && ps[i] == ToProbe(f))
  {
    hide IsFirst, ToProbe, Severe, Strip, ComesFirst;
    var ps := Map(fs, ToProbe);
    forall i
      ensures Leads(ps, i) && ps[i].f == f <==> Heads(fs, f, i)
      ensures Heads(fs, f, i) ==> 0 <= i < |ps| && ps[i] == ToProbe(f)
    {
      LeadsExactly(fs, f, i);
    }
  }

  lemma ExpiredReported(es: seq<Record>, fs: seq<Finding>, today: int, dates: string -> Option<int>, f: Finding, d: int)
    requires GoodExceptions(es, dates)
    ensures ExpiredException(f, d) in Report(Map(es, Checker(dates)), Map(fs, ToProbe), today)
            <==> (exists i :: Heads(fs, f, i))
                 && exists e :: e in es && IsFor(e, f, dates) && dates(Get(e, "expires_on")) == Some(d) && d < today
  {
    hide Report, Sound, IsFirst, Heads, IsFor, IndexOf, ToProbe;
    var ps, index := Map(fs, ToProbe), IndexOf(Map(es, Checker(dates)));
    GoodIsSound(es, dates);
    ReportedByKind(Map(es, Checker(dates)), ps, today, ExpiredException(f, d));
    IndexedFor(es, dates, f);
    HeadsLead(fs, f);
    if e :| e in es && IsFor(e, f, dates) && dates(Get(e, "expires_on")) == Some(d) && d < today {
      assert index[ToProbe(f).key].expiresOn == d;
    }
  }

  lemma MismatchReported(es: seq<Record>, fs: seq<Finding>, today: int, dates: string -> Option<int>, f: Finding,
                         s: string)
    requires GoodExceptions(es, dates)
    ensures SeverityMismatch(f, s) in Report(Map(es, Checker(dates)), Map(fs, ToProbe), today)
            <==> (exists i :: Heads(fs, f, i))
                 && exists e :: e in es && IsFor(e, f, dates) && s == Lower(Strip(Get(e, "severity"))) && s != ""
                                && s != Lower(Strip(f.severity))
  {
    hide Report, Sound, IsFirst, Heads, IsFor, IndexOf, ToProbe, Strip, Lower;
    var ps, index := Map(fs, ToProbe), IndexOf(Map(es, Checker(dates)));
    GoodIsSound(es, dates);
    ReportedByKind(Map(es, Checker(dates)), ps, today, SeverityMismatch(f, s));
    IndexedFor(es, dates, f);
    HeadsLead(fs, f);
    ProbeSeverity(f);
    if e :| e in es && IsFor(e, f, dates) && s == Lower(Strip(Get(e, "severity"))) && s != ""
            && s != Lower(Strip(f.severity)) {
      assert index[ToProbe(f).key].severity == s;
      if i :| Heads(fs, f, i) {
        assert Mismatched(ps, index, f, s, i);
      }
    }
    if i :| Mismatched(ps, index, f, s, i) {
      assert Heads(fs, f, i);
    }
  }

  lemma ProbeSeverity(f: Finding)
    ensures ToProbe(f).severity == Lower(Strip(f.severity))
  {
  }
}
