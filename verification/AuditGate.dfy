/** The audit gate of tools/check_pnpm_audit_exceptions.py: normalizing and deciding.
    Dates are day numbers, and `dates` stands for Python's ISO date parser. */
module AuditGate {
  import opened Common
  import opened Text
  import opened AuditExceptions
  import opened GateCore
  import opened AuditReport

  // ---------------------------------------------------------------- normalization

  const REQUIRED_FIELDS: set<string> := {"package", "advisory", "severity", "mitigation", "expires_on"}

  function Get(e: Record, field: string): string {
    if field in e then e[field] else ""
  }

  predicate Complete(e: Record) {
    forall field :: field in REQUIRED_FIELDS ==> Get(e, field) != ""
  }

  function NormalizeSeverity(s: string): string {
    Lower(Strip(s))
  }

  function NormalizePackage(s: string): string {
    Strip(s)
  }

  function NormalizeAdvisory(s: string): string {
    Lower(Strip(s))
  }

  function ExceptionKey(e: Record): Key {
    (NormalizePackage(Get(e, "package")), NormalizeAdvisory(Get(e, "advisory")))
  }

  /** The checks an exception has to pass before its key is looked at, in the script's order. */
  function Check(e: Record, dates: string -> Option<int>): Checked {
    if !Complete(e) then Rejected(MissingFields(e))
    else
      match dates(Get(e, "expires_on"))
      case None => Rejected(InvalidDate(e))
      case Some(day) =>
        if ExceptionKey(e).0 == "" || ExceptionKey(e).1 == "" then Rejected(EmptyKey(e))
        else Accepted(ExceptionKey(e), Exemption(NormalizeSeverity(Get(e, "severity")), day))
  }

  function Checker(dates: string -> Option<int>): Record -> Checked {
    (e: Record) => Check(e, dates)
  }

  function ToProbe(f: Finding): Probe {
    var severity, key := NormalizeSeverity(f.severity), (NormalizePackage(f.name), NormalizeAdvisory(f.advisory));
    Probe(f, (severity == "high" || severity == "critical") && f.name != "", key.1 != "", key, severity)
  }

  // ---------------------------------------------------------------- the script

  function ToMissing(): Probe -> GateError {
    (p: Probe) => MissingException(p.f)
  }

  function ToExpired(index: Index): Probe -> GateError {
    (p: Probe) => ExpiredException(p.f, if p.key in index then index[p.key].expiresOn else 0)
  }

  function Section(header: GateError, items: seq<GateError>): seq<GateError> {
    if items == [] then [] else [header] + items
  }

  /** Everything the script writes to its error list, in order. */
  function Report(cs: seq<Checked>, ps: seq<Probe>, today: int): seq<GateError> {
    var index := IndexOf(cs);
    ExceptionErrors(cs) + LookupErrors(ps, index)
    + Section(MissingExceptionsHeader, Map(Filter(Firsts(ps), Unexempted(index)), ToMissing()))
    + Section(ExpiredHeader, Map(Filter(Firsts(ps), Late(index, today)), ToExpired(index)))
  }

  method Gate(exceptions: seq<Record>, audit: Audit, today: int, dates: string -> Option<int>)
    returns (code: int, errors: seq<GateError>)
    ensures errors == Report(Map(exceptions, Checker(dates)), Map(FindingsOf(audit), ToProbe), today)
    ensures code == 0 || code == 1
    ensures code == 0 <==> Passes(exceptions, FindingsOf(audit), today, dates)
    ensures code == 0 <==> Clears(exceptions, FindingsOf(audit), today, dates)
  {
    var index;
    index, errors := ReadExceptions(exceptions, Checker(dates));
    var findings := IterVulns(audit);
    var lookup, missing, expired := LookUpFindings(findings, ToProbe, index, today);
    ghost var cs, ps := Map(exceptions, Checker(dates)), Map(findings, ToProbe);
    errors := errors + lookup;
    if |missing| > 0 {
      AppendAssociates(errors, [MissingExceptionsHeader], Map(missing, ToMissing()));
      errors := errors + [MissingExceptionsHeader] + Map(missing, ToMissing());
    }
    ghost var errors1 := errors;
    if |expired| > 0 {
      AppendAssociates(errors, [ExpiredHeader], Map(expired, ToExpired(index)));
      errors := errors + [ExpiredHeader] + Map(expired, ToExpired(index));
    }
    assert errors1 == ExceptionErrors(cs) + LookupErrors(ps, index)
                      + Section(MissingExceptionsHeader, Map(missing, ToMissing()));
    assert errors == errors1 + Section(ExpiredHeader, Map(expired, ToExpired(index)));
    SilentReport(cs, ps, today);
    PassesByIndex(exceptions, findings, today, dates);
    ClearsExactly(exceptions, findings, today, dates);
    code := if |errors| > 0 then 1 else 0;
  }

  lemma SilentReport(cs: seq<Checked>, ps: seq<Probe>, today: int)
    ensures Report(cs, ps, today) == [] <==> Sound(cs) && Verdict(ps, IndexOf(cs), today)
  {
    SilentIndex(cs);
    VerdictIsSilence(ps, IndexOf(cs), today);
  }

  // ---------------------------------------------------------------- what exit code 0 means

  /** Complete, with a valid date, and with a package and an advisory left after normalization. */
  ghost predicate Good(e: Record, dates: string -> Option<int>) {
    Complete(e) && dates(Get(e, "expires_on")).Some? && ExceptionKey(e).0 != "" && ExceptionKey(e).1 != ""
  }

  ghost predicate GoodExceptions(es: seq<Record>, dates: string -> Option<int>) {
    && (forall i :: 0 <= i < |es| ==> Good(es[i], dates))
    && (forall i, j :: 0 <= i < j < |es| ==> ExceptionKey(es[i]) != ExceptionKey(es[j]))
  }

  /** The exception applies to the finding. */
  ghost predicate Applies(e: Record, f: Finding) {
    ExceptionKey(e) == ToProbe(f).key
  }

  ghost predicate InForce(e: Record, today: int, dates: string -> Option<int>) {
    dates(Get(e, "expires_on")).Some? && dates(Get(e, "expires_on")).value >= today
  }

  ghost predicate NamesSeverity(e: Record, f: Finding) {
    NormalizeSeverity(Get(e, "severity")) == "" || NormalizeSeverity(Get(e, "severity")) == ToProbe(f).severity
  }

  /** No earlier relevant finding with an advisory has the same key. */
  ghost predicate FirstOfKey(fs: seq<Finding>, i: nat)
    requires i < |fs|
  {
    forall j :: 0 <= j < i && Looked(ToProbe(fs[j])) ==> ToProbe(fs[j]).key != ToProbe(fs[i]).key
  }

  /** The finding names an advisory, and an exception for it is in force. */
  ghost predicate Excepted(f: Finding, es: seq<Record>, today: int, dates: string -> Option<int>) {
    ToProbe(f).named && exists e :: e in es && Applies(e, f) && InForce(e, today, dates)
  }

  ghost predicate SeverityNamed(f: Finding, es: seq<Record>) {
    forall e :: e in es && Applies(e, f) ==> NamesSeverity(e, f)
  }

  ghost predicate IsRelevant(f: Finding) {
    ToProbe(f).relevant
  }

  /** The declarative meaning of exit code 0: the exceptions are good, every relevant finding is excepted,
      and the first of each key has the severity its exception names, if it names one. */
  ghost predicate Passes(es: seq<Record>, fs: seq<Finding>, today: int, dates: string -> Option<int>) {
    && GoodExceptions(es, dates)
    && (forall i :: 0 <= i < |fs| && IsRelevant(fs[i]) ==> Excepted(fs[i], es, today, dates))
    && (forall i :: 0 <= i < |fs| && IsRelevant(fs[i]) && FirstOfKey(fs, i) ==> SeverityNamed(fs[i], es))
  }

  // ---------------------------------------------------------------- the same, said of the texts themselves

  ghost predicate Has(e: Record, field: string) {
    field in e && e[field] != ""
  }

  /** All five fields are there, the date is one, and package and advisory are not blank. */
  ghost predicate Usable(e: Record, dates: string -> Option<int>) {
    && Has(e, "package") && Has(e, "advisory") && Has(e, "severity") && Has(e, "mitigation") && Has(e, "expires_on")
    && dates(e["expires_on"]).Some? && Strip(e["package"]) != "" && Strip(e["advisory"]) != ""
  }

  /** The same package, and the same advisory in whatever letter case. */
  ghost predicate SameSubject(package: string, advisory: string, name: string, id: string) {
    Strip(package) == Strip(name) && SameLetters(Strip(advisory), Strip(id))
  }

  /** High or critical, in whatever letter case, of a package with a name. */
  ghost predicate Severe(f: Finding) {
    f.name != "" && (SameLetters(Strip(f.severity), "high") || SameLetters(Strip(f.severity), "critical"))
  }

  /** The exception is for the finding's package and advisory. */
  ghost predicate IsFor(e: Record, f: Finding, dates: string -> Option<int>) {
    Usable(e, dates) && SameSubject(e["package"], e["advisory"], f.name, f.advisory)
  }

  /** An exception for the finding has not expired. */
  ghost predicate Waived(f: Finding, es: seq<Record>, today: int, dates: string -> Option<int>) {
    Strip(f.advisory) != "" && exists e :: e in es && IsFor(e, f, dates) && dates(e["expires_on"]).value >= today
  }

  /** The exceptions for the finding name its severity, or none. */
  ghost predicate SeverityAgrees(f: Finding, es: seq<Record>, dates: string -> Option<int>) {
    forall e :: e in es && IsFor(e, f, dates) ==>
      Strip(e["severity"]) == "" || SameLetters(Strip(e["severity"]), Strip(f.severity))
  }

  /** No severe finding before has the same package and advisory. */
  ghost predicate ComesFirst(fs: seq<Finding>, i: nat)
    requires i < |fs|
  {
    forall j :: 0 <= j < i && Severe(fs[j]) && Strip(fs[j].advisory) != "" ==>
      !SameSubject(fs[j].name, fs[j].advisory, fs[i].name, fs[i].advisory)
  }

  /** Both exceptions are for one subject. */
  ghost predicate Duplicates(e: Record, d: Record, dates: string -> Option<int>) {
    Usable(e, dates) && Usable(d, dates) && SameSubject(e["package"], e["advisory"], d["package"], d["advisory"])
  }

  ghost predicate DistinctSubjects(es: seq<Record>, dates: string -> Option<int>) {
    forall i, j :: 0 <= i < j < |es| ==> !Duplicates(es[i], es[j], dates)
  }

  /** Exit code 0, on the texts as they are: every exception is usable and for a subject of its own; every severe
      finding is waived; and the first of a subject has the severity that its exception names. */
  ghost predicate Clears(es: seq<Record>, fs: seq<Finding>, today: int, dates: string -> Option<int>) {
    && (forall i :: 0 <= i < |es| ==> Usable(es[i], dates)) && DistinctSubjects(es, dates)
    && (forall i :: 0 <= i < |fs| && Severe(fs[i]) ==> Waived(fs[i], es, today, dates))
    && (forall i :: 0 <= i < |fs| && Severe(fs[i]) && ComesFirst(fs, i) ==> SeverityAgrees(fs[i], es, dates))
  }

  lemma FieldsExactly(e: Record)
    ensures Complete(e) <==>
      Has(e, "package") && Has(e, "advisory") && Has(e, "severity") && Has(e, "mitigation") && Has(e, "expires_on")
  {
    var f := REQUIRED_FIELDS;
    assert "package" in f && "advisory" in f && "severity" in f && "mitigation" in f && "expires_on" in f;
  }

  lemma BlankExactly(s: string)
    ensures Lower(s) == "" <==> s == ""
  {
  }

  lemma UsableExactly(e: Record, dates: string -> Option<int>)
    ensures Good(e, dates) <==> Usable(e, dates)
  {
    hide Strip, Lower, Complete;
    FieldsExactly(e);
    BlankExactly(Strip(Get(e, "advisory")));
  }

  lemma SubjectExactly(package: string, advisory: string, name: string, id: string)
    ensures (NormalizePackage(package), NormalizeAdvisory(advisory)) == (NormalizePackage(name), NormalizeAdvisory(id))
            <==> SameSubject(package, advisory, name, id)
  {
    LowerExactly(Strip(advisory), Strip(id));
  }

  lemma SevereExactly(f: Finding)
    ensures IsRelevant(f) <==> Severe(f)
    ensures ToProbe(f).named <==> Strip(f.advisory) != ""
  {
    hide Strip, Lower;
    BlankExactly(Strip(f.advisory));
    LowerHigh();
    LowerExactly(Strip(f.severity), "high");
    LowerExactly(Strip(f.severity), "critical");
  }

  lemma LowerHigh()
    ensures Lower("high") == "high" && Lower("critical") == "critical"
  {
    LowerStays("high");
    LowerStays("critical");
  }

  lemma {:induction false} LowerStays(s: string)
    requires forall i :: 0 <= i < |s| ==> !('A' <= s[i] <= 'Z')
    ensures Lower(s) == s
  {
    if s != "" {
      LowerStays(s[1..]);
      assert s == [s[0]] + s[1..];
    }
  }

  lemma AppliesExactly(e: Record, f: Finding, dates: string -> Option<int>)
    requires Usable(e, dates)
    ensures Applies(e, f) <==> IsFor(e, f, dates)
    ensures NamesSeverity(e, f) <==> Strip(e["severity"]) == "" || SameLetters(Strip(e["severity"]), Strip(f.severity))
  {
    hide Strip, Lower, SameLetters;
    SubjectExactly(e["package"], e["advisory"], f.name, f.advisory);
    BlankExactly(Strip(e["severity"]));
    LowerExactly(Strip(e["severity"]), Strip(f.severity));
  }

  lemma FirstExactly(fs: seq<Finding>, i: nat)
    requires i < |fs|
    ensures FirstOfKey(fs, i) <==> ComesFirst(fs, i)
  {
    hide Strip, Lower, SameSubject, Severe;
    forall j | 0 <= j < i
      ensures Looked(ToProbe(fs[j])) <==> Severe(fs[j]) && Strip(fs[j].advisory) != ""
      ensures ToProbe(fs[j]).key == ToProbe(fs[i]).key
              <==> SameSubject(fs[j].name, fs[j].advisory, fs[i].name, fs[i].advisory)
    {
      SevereExactly(fs[j]);
      SubjectExactly(fs[j].name, fs[j].advisory, fs[i].name, fs[i].advisory);
    }
  }

  lemma WaivedExactly(f: Finding, es: seq<Record>, today: int, dates: string -> Option<int>)
    requires forall e :: e in es ==> Usable(e, dates)
    ensures Excepted(f, es, today, dates) <==> Waived(f, es, today, dates)
    ensures SeverityNamed(f, es) <==> SeverityAgrees(f, es, dates)
  {
    hide Strip, Lower, SameLetters, Applies, IsFor, NamesSeverity, ToProbe;
    SevereExactly(f);
    forall e | e in es
      ensures Applies(e, f) <==> IsFor(e, f, dates)
      ensures NamesSeverity(e, f)
              <==> Strip(e["severity"]) == "" || SameLetters(Strip(e["severity"]), Strip(f.severity))
      ensures Usable(e, dates)
    {
      AppliesExactly(e, f, dates);
    }
  }

  lemma GoodExactly(es: seq<Record>, dates: string -> Option<int>)
    ensures GoodExceptions(es, dates) <==>
      (forall i :: 0 <= i < |es| ==> Usable(es[i], dates)) && DistinctSubjects(es, dates)
  {
    hide Usable, Good, Duplicates, NormalizePackage, NormalizeAdvisory;
    forall i | 0 <= i < |es|
      ensures Good(es[i], dates) <==> Usable(es[i], dates)
    {
      UsableExactly(es[i], dates);
    }
    forall i, j | 0 <= i < j < |es| && Usable(es[i], dates) && Usable(es[j], dates)
      ensures ExceptionKey(es[i]) == ExceptionKey(es[j]) <==> Duplicates(es[i], es[j], dates)
    {
      KeysExactly(es[i], es[j], dates);
    }
  }

  lemma KeysExactly(e: Record, d: Record, dates: string -> Option<int>)
    requires Usable(e, dates) && Usable(d, dates)
    ensures ExceptionKey(e) == ExceptionKey(d) <==> Duplicates(e, d, dates)
  {
    SubjectExactly(e["package"], e["advisory"], d["package"], d["advisory"]);
  }

  /** The verdict on normalized values is the verdict on the texts. */
  lemma ClearsExactly(es: seq<Record>, fs: seq<Finding>, today: int, dates: string -> Option<int>)
    ensures Passes(es, fs, today, dates) <==> Clears(es, fs, today, dates)
  {
    hide Usable, GoodExceptions, DistinctSubjects, Excepted, Waived, SeverityNamed, SeverityAgrees, IsRelevant, Severe,
      FirstOfKey, ComesFirst;
    GoodExactly(es, dates);
    if GoodExceptions(es, dates) {
      forall i | 0 <= i < |fs|
        ensures IsRelevant(fs[i]) <==> Severe(fs[i])
        ensures Excepted(fs[i], es, today, dates) <==> Waived(fs[i], es, today, dates)
        ensures SeverityNamed(fs[i], es) <==> SeverityAgrees(fs[i], es, dates)
        ensures FirstOfKey(fs, i) <==> ComesFirst(fs, i)
      {
        SevereExactly(fs[i]);
        WaivedExactly(fs[i], es, today, dates);
        FirstExactly(fs, i);
      }
    }
  }

  // ---------------------------------------------------------------- the script on text

  /** The exceptions file parses, and the gate passes on what it holds. */
  ghost predicate TextPasses(text: string, fs: seq<Finding>, today: int, dates: string -> Option<int>) {
    Parsed(Lines(text)).Ok? && Passes(Parsed(Lines(text)).value, fs, today, dates)
  }

  /** The script on the text of its exceptions file; a line that cannot be split ends it with an uncaught error. */
  method CheckAudit(text: string, audit: Audit, today: int, dates: string -> Option<int>) returns (code: int)
    ensures code == 0 || code == 1
    ensures code == 0 <==> TextPasses(text, FindingsOf(audit), today, dates)
  {
    var parsed := ParseExceptions(text);
    if parsed.Err? {
      return 1;
    }
    var errors;
    code, errors := Gate(parsed.value, audit, today, dates);
  }

  /** On a printed file the script decides as it does on the records printed. */
  lemma PrintedPasses(entries: seq<seq<Pair>>, fs: seq<Finding>, today: int, dates: string -> Option<int>)
    requires forall e :: e in entries ==> Printable(e) && OneLinePairs(e)
    ensures TextPasses(JoinLines(PrintFile(entries)), fs, today, dates)
            <==> Passes(Map(entries, ToRecord), fs, today, dates)
  {
    hide Passes, Parsed, Lines, JoinLines, PrintFile, Printable, OneLinePairs;
    ParseTextUndoesPrint(entries);
  }

  lemma CheckAccepts(e: Record, dates: string -> Option<int>)
    ensures Check(e, dates).Accepted? <==> Good(e, dates)
    ensures Good(e, dates) ==>
      Check(e, dates) == Accepted(ExceptionKey(e),
                                  Exemption(NormalizeSeverity(Get(e, "severity")), dates(Get(e, "expires_on")).value))
  {
  }

  /** Why an exception is rejected: a field that is missing, else its date, else a blank package or advisory. */
  lemma RejectedExactly(e: Record, dates: string -> Option<int>)
    ensures Check(e, dates) == Rejected(MissingFields(e)) <==>
      !(Has(e, "package") && Has(e, "advisory") && Has(e, "severity") && Has(e, "mitigation") && Has(e, "expires_on"))
    ensures Check(e, dates) == Rejected(InvalidDate(e)) <==> Complete(e) && dates(Get(e, "expires_on")).None?
    ensures Check(e, dates) == Rejected(EmptyKey(e)) <==>
      && Complete(e) && dates(Get(e, "expires_on")).Some?
      && (Strip(Get(e, "package")) == "" || Strip(Get(e, "advisory")) == "")
  {
    hide Strip, Lower, Complete;
    FieldsExactly(e);
    BlankExactly(Strip(Get(e, "advisory")));
  }

  lemma GoodIsSound(es: seq<Record>, dates: string -> Option<int>)
    ensures GoodExceptions(es, dates) <==> Sound(Map(es, Checker(dates)))
  {
    var cs := Map(es, Checker(dates));
    forall i | 0 <= i < |es|
      ensures cs[i].Accepted? <==> Good(es[i], dates)
      ensures Good(es[i], dates) ==> cs[i].key == ExceptionKey(es[i])
    {
      CheckAccepts(es[i], dates);
    }
  }

  /** The exception found by a finding's key. */
  lemma IndexedException(es: seq<Record>, dates: string -> Option<int>, f: Finding, today: int)
    requires GoodExceptions(es, dates)
    ensures var index := IndexOf(Map(es, Checker(dates)));
      && (Covered(ToProbe(f), index, today) <==> Excepted(f, es, today, dates))
      && (SeverityFits(ToProbe(f), index) <==> SeverityNamed(f, es))
  {
    var cs, p := Map(es, Checker(dates)), ToProbe(f);
    var index := IndexOf(cs);
    GoodIsSound(es, dates);
    SoundIndex(cs);
    forall e | e in es && Applies(e, f)
      ensures p.key in index
      ensures p.key in index ==> index[p.key].severity == NormalizeSeverity(Get(e, "severity"))
      ensures p.key in index ==> Some(index[p.key].expiresOn) == dates(Get(e, "expires_on"))
    {
      var i :| 0 <= i < |es| && es[i] == e;
      CheckAccepts(e, dates);
      assert cs[i] == Check(e, dates) && cs[i] in cs;
    }
    if p.key in index {
      assert Accepted(p.key, index[p.key]) in cs;
      var i :| 0 <= i < |cs| && cs[i] == Accepted(p.key, index[p.key]);
      CheckAccepts(es[i], dates);
      assert es[i] in es && Applies(es[i], f);
    }
  }

  lemma FirstInOrder(fs: seq<Finding>, i: nat)
    requires i < |fs|
    ensures IsFirst(Map(fs, ToProbe), i) <==> FirstOfKey(fs, i)
  {
    var ps := Map(fs, ToProbe);
    assert forall j :: 0 <= j <= i ==> ps[j] == ToProbe(fs[j]);
  }

  /** The declarative reading agrees with the one on normalized values. */
  lemma PassesByIndex(es: seq<Record>, fs: seq<Finding>, today: int, dates: string -> Option<int>)
    ensures Passes(es, fs, today, dates)
            <==> Sound(Map(es, Checker(dates))) && Verdict(Map(fs, ToProbe), IndexOf(Map(es, Checker(dates))), today)
  {
    GoodIsSound(es, dates);
    if GoodExceptions(es, dates) {
      var ps, index := Map(fs, ToProbe), IndexOf(Map(es, Checker(dates)));
      forall i | 0 <= i < |fs|
        ensures ps[i].relevant == IsRelevant(fs[i])
        ensures IsFirst(ps, i) <==> FirstOfKey(fs, i)
        ensures Covered(ps[i], index, today) <==> Excepted(fs[i], es, today, dates)
        ensures SeverityFits(ps[i], index) <==> SeverityNamed(fs[i], es)
      {
        FirstInOrder(fs, i);
        IndexedException(es, dates, fs[i], today);
      }
    }
  }
}
