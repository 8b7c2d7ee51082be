/** The decision loops of the audit gate, on exceptions and findings that are already normalized. */
module GateCore {
  import opened Common
  import opened AuditExceptions

  /** One row of the audit report. Absent text values are the empty string; the script treats both alike. */
  datatype Finding = Finding(name: string, severity: string, advisory: string, title: string)

  /** Package and advisory. */
  type Key = (string, string)

  /** What an exception grants, in days for dates. */
  datatype Exemption = Exemption(severity: string, expiresOn: int)

  datatype GateError =
    | MissingFields(e: Record)
    | InvalidDate(e: Record)
    | EmptyKey(e: Record)
    | DuplicateException(key: Key)
    | MissingAdvisory(f: Finding)
    | SeverityMismatch(f: Finding, exempted: string)
    | MissingExceptionsHeader
    | MissingException(f: Finding)
    | ExpiredHeader
    | ExpiredException(f: Finding, expiresOn: int)

  /** An exception after its own checks. */
  datatype Checked = Rejected(error: GateError) | Accepted(key: Key, exemption: Exemption)

  /** A finding with its normalized severity and key. */
  datatype Probe = Probe(f: Finding, relevant: bool, named: bool, key: Key, severity: string)

  type Index = map<Key, Exemption>

  // ---------------------------------------------------------------- the index of exceptions

  /** Of the exceptions with one key the first accepted one stays. */
  function IndexOf(cs: seq<Checked>): Index {
    if cs == [] then map[]
    else
      var index, c := IndexOf(cs[..|cs| - 1]), cs[|cs| - 1];
      if c.Accepted? && c.key !in index then index[c.key := c.exemption] else index
  }

  function ErrorOf(c: Checked, taken: Index): seq<GateError> {
    match c
    case Rejected(e) => [e]
    case Accepted(k, _) => if k in taken then [DuplicateException(k)] else []
  }

  function ExceptionErrors(cs: seq<Checked>): seq<GateError> {
    if cs == [] then []
    else ExceptionErrors(cs[..|cs| - 1]) + ErrorOf(cs[|cs| - 1], IndexOf(cs[..|cs| - 1]))
  }

  /** All exceptions accepted, no two with the same key. */
  ghost predicate Sound(cs: seq<Checked>) {
    && (forall i :: 0 <= i < |cs| ==> cs[i].Accepted?)
    && (forall i, j :: 0 <= i < j < |cs| ==> cs[i].key != cs[j].key)
  }

  ghost predicate Indexes(index: Index, cs: seq<Checked>) {
    forall k, x :: (k in index && index[k] == x) <==> Accepted(k, x) in cs
  }

  lemma {:induction false} IndexHolds(cs: seq<Checked>)
    ensures forall k :: k in IndexOf(cs) ==> Accepted(k, IndexOf(cs)[k]) in cs
    ensures forall i :: 0 <= i < |cs| && cs[i].Accepted? ==> cs[i].key in IndexOf(cs)
    decreases |cs|
  {
    if cs != [] {
      var init, c := cs[..|cs| - 1], cs[|cs| - 1];
      IndexHolds(init);
      assert forall i :: 0 <= i < |init| ==> cs[i] == init[i];
      assert cs == init + [c];
    }
  }

  /** The first accepted entry of a key. */
  ghost predicate FirstAccepted(cs: seq<Checked>, i: nat)
    requires i < |cs|
  {
    cs[i].Accepted? && forall j :: 0 <= j < i && cs[j].Accepted? ==> cs[j].key != cs[i].key
  }

  /** The index holds, for each key, what its first accepted entry grants. */
  lemma {:induction false} IndexKeepsFirst(cs: seq<Checked>, i: nat)
    requires i < |cs| && FirstAccepted(cs, i)
    ensures cs[i].key in IndexOf(cs) && IndexOf(cs)[cs[i].key] == cs[i].exemption
    decreases |cs|
  {
    var init := cs[..|cs| - 1];
    if i < |init| {
      assert FirstAccepted(init, i);
      IndexKeepsFirst(init, i);
    } else {
      IndexHolds(init);
      forall j | 0 <= j < |init| && init[j].Accepted?
        ensures init[j].key != cs[i].key
      {
        assert init[j] == cs[j];
      }
      assert cs[i].key !in IndexOf(init);
    }
  }

  lemma SoundGrows(init: seq<Checked>, c: Checked)
    ensures Sound(init + [c]) <==> Sound(init) && c.Accepted? && c.key !in IndexOf(init)
  {
    var cs := init + [c];
    assert cs[|init|] == c && forall i :: 0 <= i < |init| ==> cs[i] == init[i];
    IndexHolds(init);
    if Sound(init) && c.Accepted? && c.key in IndexOf(init) {
      var i :| 0 <= i < |init| && init[i] == Accepted(c.key, IndexOf(init)[c.key]);
      assert cs[i].key == c.key;
    }
    if Sound(cs) {
      assert forall i :: 0 <= i < |init| ==> cs[i].key != cs[|init|].key;
      assert c.key !in IndexOf(init);
    }
  }

  lemma {:induction false} SilentIndex(cs: seq<Checked>)
    ensures ExceptionErrors(cs) == [] <==> Sound(cs)
    decreases |cs|
  {
    if cs != [] {
      SilentIndex(cs[..|cs| - 1]);
      SoundGrows(cs[..|cs| - 1], cs[|cs| - 1]);
      assert cs == cs[..|cs| - 1] + [cs[|cs| - 1]];
    }
  }

  lemma SoundIndex(cs: seq<Checked>)
    requires Sound(cs)
    ensures Indexes(IndexOf(cs), cs)
  {
    IndexHolds(cs);
    var index := IndexOf(cs);
    forall k, x
      ensures (k in index && index[k] == x) <==> Accepted(k, x) in cs
    {
      if Accepted(k, x) in cs {
        var i :| 0 <= i < |cs| && cs[i] == Accepted(k, x);
        var j :| 0 <= j < |cs| && cs[j] == Accepted(k, index[k]);
        assert i == j;
      }
    }
  }

  // ---------------------------------------------------------------- looking up the findings

  predicate Looked(p: Probe) {
    p.relevant && p.named
  }

  /** The findings that are looked up: relevant, with an advisory, the first of their key. */
  function Firsts(ps: seq<Probe>): seq<Probe> {
    if ps == [] then []
    else
      var firsts, p := Firsts(ps[..|ps| - 1]), ps[|ps| - 1];
      if Looked(p) && p.key !in Keys(firsts) then firsts + [p] else firsts
  }

  function Keys(ps: seq<Probe>): set<Key> {
    set i | 0 <= i < |ps| :: ps[i].key
  }

  function Unexempted(index: Index): Probe -> bool {
    (p: Probe) => p.key !in index
  }

  function Late(index: Index, today: int): Probe -> bool {
    (p: Probe) => p.key in index && index[p.key].expiresOn < today
  }

  predicate SeverityFits(p: Probe, index: Index) {
    p.key in index ==> index[p.key].severity == "" || index[p.key].severity == p.severity
  }

  function LookupError(p: Probe, seen: set<Key>, index: Index): seq<GateError> {
    if !p.relevant then []
    else if !p.named then [MissingAdvisory(p.f)]
    else if p.key in seen || SeverityFits(p, index) then []
    else [SeverityMismatch(p.f, index[p.key].severity)]
  }

  function LookupErrors(ps: seq<Probe>, index: Index): seq<GateError> {
    if ps == [] then []
    else
      LookupErrors(ps[..|ps| - 1], index) + LookupError(ps[|ps| - 1], Keys(Firsts(ps[..|ps| - 1])), index)
  }

  /** No earlier looked-up finding has the key of finding i. */
  ghost predicate IsFirst(ps: seq<Probe>, i: nat)
    requires i < |ps|
  {
    forall j :: 0 <= j < i && Looked(ps[j]) ==> ps[j].key != ps[i].key
  }

  ghost predicate Covered(p: Probe, index: Index, today: int) {
    p.named && p.key in index && index[p.key].expiresOn >= today
  }

  /** The declarative meaning of a silent lookup. */
  ghost predicate Verdict(ps: seq<Probe>, index: Index, today: int) {
    && (forall i :: 0 <= i < |ps| && ps[i].relevant ==> Covered(ps[i], index, today))
    && (forall i :: 0 <= i < |ps| && ps[i].relevant && IsFirst(ps, i) ==> SeverityFits(ps[i], index))
  }

  lemma KeysGrow(ps: seq<Probe>, p: Probe)
    ensures Keys(ps + [p]) == Keys(ps) + {p.key}
  {
    forall k | k in Keys(ps) + {p.key}
      ensures k in Keys(ps + [p])
    {
      assert (ps + [p])[|ps|] == p;
      if k in Keys(ps) {
        var i :| 0 <= i < |ps| && ps[i].key == k;
        assert (ps + [p])[i] == ps[i];
      }
    }
  }

  ghost predicate LookedAt(ps: seq<Probe>, k: Key, i: int) {
    0 <= i < |ps| && Looked(ps[i]) && ps[i].key == k
  }

  lemma {:induction false} FirstsKeys(ps: seq<Probe>)
    ensures forall k :: k in Keys(Firsts(ps)) <==> exists i :: LookedAt(ps, k, i)
    decreases |ps|
  {
    if ps != [] {
      var init, p := ps[..|ps| - 1], ps[|ps| - 1];
      assert ps == init + [p];
      FirstsKeys(init);
      KeysGrow(Firsts(init), p);
      forall k
        ensures k in Keys(Firsts(ps)) <==> exists i :: LookedAt(ps, k, i)
      {
        if i :| LookedAt(ps, k, i) {
          assert i < |init| ==> LookedAt(init, k, i);
        }
        if k in Keys(Firsts(init)) {
          var i :| LookedAt(init, k, i);
          assert LookedAt(ps, k, i);
        } else if k in Keys(Firsts(ps)) {
          assert LookedAt(ps, k, |init|);
        }
      }
    }
  }

  lemma FirstsLast(init: seq<Probe>, p: Probe)
    ensures p.key !in Keys(Firsts(init)) <==> IsFirst(init + [p], |init|)
  {
    var ps := init + [p];
    FirstsKeys(init);
    assert forall i :: 0 <= i < |init| ==> ps[i] == init[i];
    assert forall i :: LookedAt(init, p.key, i) ==> Looked(ps[i]) && ps[i].key == p.key;
    if !IsFirst(ps, |init|) {
      var i :| 0 <= i < |init| && Looked(ps[i]) && ps[i].key == p.key;
      assert LookedAt(init, p.key, i);
    }
  }

  lemma FirstEarlier(init: seq<Probe>, p: Probe, i: nat)
    requires i < |init|
    ensures IsFirst(init + [p], i) <==> IsFirst(init, i)
  {
    assert forall j :: 0 <= j <= i ==> (init + [p])[j] == init[j];
  }

  ghost predicate Leads(ps: seq<Probe>, i: int) {
    0 <= i < |ps| && Looked(ps[i]) && IsFirst(ps, i)
  }

  lemma LeadsGrow(init: seq<Probe>, p: Probe, i: int)
    ensures Leads(init + [p], i)
            <==> if i == |init| then Looked(p) && p.key !in Keys(Firsts(init)) else Leads(init, i)
  {
    FirstsLast(init, p);
    if 0 <= i < |init| {
      FirstEarlier(init, p, i);
      assert (init + [p])[i] == init[i];
    }
  }

  /** Firsts holds exactly the looked-up findings that are the first of their key. */
  lemma {:induction false} FirstsExact(ps: seq<Probe>)
    ensures forall p :: p in Firsts(ps) <==> exists i :: Leads(ps, i) && ps[i] == p
    decreases |ps|
  {
    if ps != [] {
      var init, last := ps[..|ps| - 1], ps[|ps| - 1];
      assert ps == init + [last];
      FirstsExact(init);
      forall p
        ensures p in Firsts(ps) <==> exists i :: Leads(ps, i) && ps[i] == p
      {
        LeadsGrow(init, last, |init|);
        if p in Firsts(init) {
          var i :| Leads(init, i) && init[i] == p;
          LeadsGrow(init, last, i);
          assert ps[i] == p;
        }
        if i :| Leads(ps, i) && ps[i] == p {
          LeadsGrow(init, last, i);
          assert i < |init| ==> init[i] == p;
        }
      }
    }
  }

  ghost predicate AllNamed(ps: seq<Probe>) {
    forall i :: 0 <= i < |ps| && ps[i].relevant ==> ps[i].named
  }

  ghost predicate FirstsFit(ps: seq<Probe>, index: Index) {
    forall i :: Leads(ps, i) ==> SeverityFits(ps[i], index)
  }

  lemma FirstsFitGrows(init: seq<Probe>, p: Probe, index: Index)
    ensures FirstsFit(init + [p], index) <==>
      FirstsFit(init, index) && (Looked(p) && p.key !in Keys(Firsts(init)) ==> SeverityFits(p, index))
  {
    var ps := init + [p];
    LeadsGrow(init, p, |init|);
    if FirstsFit(ps, index) {
      forall i | Leads(init, i)
        ensures SeverityFits(init[i], index)
      {
        LeadsGrow(init, p, i);
        assert ps[i] == init[i];
      }
    }
    if FirstsFit(init, index) && (Looked(p) && p.key !in Keys(Firsts(init)) ==> SeverityFits(p, index)) {
      forall i | Leads(ps, i)
        ensures SeverityFits(ps[i], index)
      {
        LeadsGrow(init, p, i);
        assert i < |init| ==> ps[i] == init[i];
      }
    }
  }

  lemma AllNamedGrows(init: seq<Probe>, p: Probe)
    ensures AllNamed(init + [p]) <==> AllNamed(init) && (p.relevant ==> p.named)
  {
    var ps := init + [p];
    assert ps[|init|] == p && forall i :: 0 <= i < |init| ==> ps[i] == init[i];
  }

  lemma {:induction false} LookupSilent(ps: seq<Probe>, index: Index)
    ensures LookupErrors(ps, index) == [] <==> AllNamed(ps) && FirstsFit(ps, index)
    decreases |ps|
  {
    if ps != [] {
      var init, p := ps[..|ps| - 1], ps[|ps| - 1];
      assert ps == init + [p];
      LookupSilent(init, index);
      FirstsFitGrows(init, p, index);
      AllNamedGrows(init, p);
      assert LookupErrors(ps, index) == LookupErrors(init, index) + LookupError(p, Keys(Firsts(init)), index);
    }
  }

  /** A relevant finding with an advisory is, or is preceded by, the first one with its key. */
  lemma FirstOf(ps: seq<Probe>, i: nat) returns (j: nat)
    requires i < |ps| && Looked(ps[i])
    ensures j <= i && Looked(ps[j]) && ps[j].key == ps[i].key && IsFirst(ps, j)
    decreases i
  {
    if IsFirst(ps, i) {
      j := i;
    } else {
      var k :| 0 <= k < i && Looked(ps[k]) && ps[k].key == ps[i].key;
      j := FirstOf(ps, k);
    }
  }

  lemma PassIsSilent(ps: seq<Probe>, index: Index, today: int)
    requires Verdict(ps, index, today)
    ensures Filter(Firsts(ps), Unexempted(index)) == [] && Filter(Firsts(ps), Late(index, today)) == []
  {
    FirstsExact(ps);
    forall p | p in Firsts(ps)
      ensures !Unexempted(index)(p) && !Late(index, today)(p)
    {
      var i :| Leads(ps, i) && ps[i] == p;
    }
    FilterNone(Firsts(ps), Unexempted(index));
    FilterNone(Firsts(ps), Late(index, today));
  }

  lemma SilentIsCovered(ps: seq<Probe>, index: Index, today: int, i: nat)
    requires i < |ps| && Looked(ps[i])
    requires Filter(Firsts(ps), Unexempted(index)) == [] && Filter(Firsts(ps), Late(index, today)) == []
    ensures Covered(ps[i], index, today)
  {
    FirstsExact(ps);
    var j := FirstOf(ps, i);
    assert Leads(ps, j) && ps[j] in Firsts(ps);
    FilterEmpty(Firsts(ps), Unexempted(index));
    FilterEmpty(Firsts(ps), Late(index, today));
    var m :| 0 <= m < |Firsts(ps)| && Firsts(ps)[m] == ps[j];
    assert !Unexempted(index)(Firsts(ps)[m]) && !Late(index, today)(Firsts(ps)[m]);
  }

  /** The lookup loop reports nothing exactly when the verdict is to pass. */
  lemma VerdictIsSilence(ps: seq<Probe>, index: Index, today: int)
    ensures Verdict(ps, index, today) <==>
      && LookupErrors(ps, index) == []
      && Filter(Firsts(ps), Unexempted(index)) == []
      && Filter(Firsts(ps), Late(index, today)) == []
  {
    LookupSilent(ps, index);
    if Verdict(ps, index, today) {
      PassIsSilent(ps, index, today);
    }
    if LookupErrors(ps, index) == []
       && Filter(Firsts(ps), Unexempted(index)) == [] && Filter(Firsts(ps), Late(index, today)) == [] {
      forall i | 0 <= i < |ps| && ps[i].relevant
        ensures Covered(ps[i], index, today)
      {
        SilentIsCovered(ps, index, today, i);
      }
    }
  }

  // ---------------------------------------------------------------- one round of the lookup loop

  lemma AfterSkipped(ps: seq<Probe>, p: Probe, index: Index, today: int)
    requires !Looked(p) || p.key in Keys(Firsts(ps))
    ensures Firsts(ps + [p]) == Firsts(ps)
    ensures LookupErrors(ps + [p], index)
            == LookupErrors(ps, index) + if p.relevant && !p.named then [MissingAdvisory(p.f)] else []
  {
    assert (ps + [p])[..|ps|] == ps;
  }

  lemma AfterFirst(ps: seq<Probe>, p: Probe, index: Index, today: int)
    requires Looked(p) && p.key !in Keys(Firsts(ps))
    ensures Keys(Firsts(ps + [p])) == Keys(Firsts(ps)) + {p.key}
    ensures LookupErrors(ps + [p], index) == LookupErrors(ps, index) + LookupError(p, Keys(Firsts(ps)), index)
    ensures Filter(Firsts(ps + [p]), Unexempted(index))
            == Filter(Firsts(ps), Unexempted(index)) + (if p.key !in index then [p] else [])
    ensures Filter(Firsts(ps + [p]), Late(index, today))
            == Filter(Firsts(ps), Late(index, today)) + (if Late(index, today)(p) then [p] else [])
  {
    assert (ps + [p])[..|ps|] == ps;
    assert Firsts(ps + [p]) == Firsts(ps) + [p];
    KeysGrow(Firsts(ps), p);
    FilterSnoc(Firsts(ps), p, Unexempted(index));
    FilterSnoc(Firsts(ps), p, Late(index, today));
  }

  // ---------------------------------------------------------------- the loops

  method ReadExceptions(exceptions: seq<Record>, check: Record -> Checked)
    returns (index: Index, errors: seq<GateError>)
    ensures index == IndexOf(Map(exceptions, check))
    ensures errors == ExceptionErrors(Map(exceptions, check))
  {
    index, errors := map[], [];
    ghost var cs := Map(exceptions, check);
    var i := 0;
    while i < |exceptions|
      invariant 0 <= i <= |exceptions|
      invariant index == IndexOf(cs[..i])
      invariant errors == ExceptionErrors(cs[..i])
    {
      var checked := check(exceptions[i]);
      assert cs[..i + 1][..i] == cs[..i] && cs[..i + 1][i] == checked;
      i := i + 1;
      match checked {
        case Rejected(e) =>
          errors := errors + [e];
        case Accepted(key, exemption) =>
          if key in index {
            errors := errors + [DuplicateException(key)];
          } else {
            index := index[key := exemption];
          }
      }
    }
    assert cs[..i] == cs;
  }

  /** The loop's variables after the findings ps. */
  ghost predicate LookedUp(ps: seq<Probe>, index: Index, today: int,
                           seen: set<Key>, errors: seq<GateError>, missing: seq<Probe>, expired: seq<Probe>)
  {
    && seen == Keys(Firsts(ps))
    && errors == LookupErrors(ps, index)
    && missing == Filter(Firsts(ps), Unexempted(index))
    && expired == Filter(Firsts(ps), Late(index, today))
  }

  method LookUpOne(p: Probe, ghost ps: seq<Probe>, index: Index, today: int,
                   seen0: set<Key>, errors0: seq<GateError>, missing0: seq<Probe>, expired0: seq<Probe>)
    returns (seen: set<Key>, errors: seq<GateError>, missing: seq<Probe>, expired: seq<Probe>)
    requires LookedUp(ps, index, today, seen0, errors0, missing0, expired0)
    ensures LookedUp(ps + [p], index, today, seen, errors, missing, expired)
  {
    seen, errors, missing, expired := seen0, errors0, missing0, expired0;
    if !Looked(p) || p.key in seen {
      AfterSkipped(ps, p, index, today);
    } else {
      AfterFirst(ps, p, index, today);
    }
    if !p.relevant {
      return;
    }
    if !p.named {
      errors := errors + [MissingAdvisory(p.f)];
      return;
    }
    if p.key in seen {
      return;
    }
    seen := seen + {p.key};
    if p.key !in index {
      missing := missing + [p];
      return;
    }
    var exempted := index[p.key];
    if exempted.severity != "" && exempted.severity != p.severity {
      errors := errors + [SeverityMismatch(p.f, exempted.severity)];
    }
    if exempted.expiresOn < today {
      expired := expired + [p];
    }
  }

  method LookUpFindings(findings: seq<Finding>, probe: Finding -> Probe, index: Index, today: int)
    returns (errors: seq<GateError>, missing: seq<Probe>, expired: seq<Probe>)
    ensures errors == LookupErrors(Map(findings, probe), index)
    ensures missing == Filter(Firsts(Map(findings, probe)), Unexempted(index))
    ensures expired == Filter(Firsts(Map(findings, probe)), Late(index, today))
  {
    errors, missing, expired := [], [], [];
    var seen: set<Key> := {};
    ghost var ps: seq<Probe> := [];
    var i := 0;
    while i < |findings|
      invariant 0 <= i <= |findings|
      invariant ps == Map(findings[..i], probe)
      invariant LookedUp(ps, index, today, seen, errors, missing, expired)
    {
      var p := probe(findings[i]);
      seen, errors, missing, expired := LookUpOne(p, ps, index, today, seen, errors, missing, expired);
      ps := ps + [p];
      i := i + 1;
    }
    assert findings[..i] == findings;
  }
}
