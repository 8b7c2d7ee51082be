/** The audit report and the findings in it (pick_advisory_id and iter_vulns of tools/check_pnpm_audit_exceptions.py).
    */
module AuditReport {
  import opened Common
  import opened GateCore

  // ---------------------------------------------------------------- the report

  /** An entry of the "advisories" object. Absent values are empty strings. */
  datatype Advisory = Advisory(
    moduleName: string, name: string, severity: string, ghsa: string, url: string, cves: seq<string>,
    id: string, title: string, advisory: string, overview: string)

  datatype ViaItem =
    | Detail(ghsa: string, url: string, source: string, title: string, name: string, advisory: string)
    | Plain(text: string)
    | Ignored

  datatype Via = ViaList(items: seq<ViaItem>) | ViaText(text: string) | ViaOther

  /** An entry of the "vulnerabilities" object. */
  datatype Vulnerability = Vulnerability(name: string, severity: string, via: Via)

  /** The parsed report; a part that is not an object is None. */
  datatype Audit = Audit(advisories: Option<seq<Advisory>>, vulnerabilities: Option<seq<Vulnerability>>)

  /** Python's `a or b or ...` on text. */
  function FirstText(texts: seq<string>): string {
    if texts == [] then "" else if texts[0] != "" then texts[0] else FirstText(texts[1..])
  }

  function PickAdvisoryId(a: Advisory): string {
    FirstText([a.ghsa, a.url, if a.cves == [] then "" else a.cves[0], a.id, a.title, a.advisory, a.overview])
  }

  function FromAdvisory(a: Advisory): Finding {
    Finding(FirstText([a.moduleName, a.name]), a.severity, PickAdvisoryId(a),
            FirstText([a.title, a.advisory, a.overview, a.url]))
  }

  function ItemId(i: ViaItem): string {
    match i
    case Detail(g, u, s, t, n, _) => FirstText([g, u, s, t, n])
    case Plain(t) => t
    case Ignored => ""
  }

  function ItemTitle(i: ViaItem): string {
    match i
    case Detail(_, u, s, t, _, a) => FirstText([t, u, a, s])
    case Plain(t) => t
    case Ignored => ""
  }

  function Items(v: Via): seq<ViaItem> {
    match v
    case ViaList(items) => items
    case ViaText(t) => [Plain(t)]
    case ViaOther => []
  }

  function NotEmpty(): string -> bool {
    (s: string) => s != ""
  }

  function JoinTitles(titles: seq<string>): string {
    if titles == [] then "" else if |titles| == 1 then titles[0] else titles[0] + "; " + JoinTitles(titles[1..])
  }

  /** The advisory ids of a vulnerability: those of its items that have one. */
  function Ids(v: Vulnerability): seq<string> {
    Filter(Map(Items(v.via), ItemId), NotEmpty())
  }

  function Title(v: Vulnerability): string {
    JoinTitles(Filter(Map(Items(v.via), ItemTitle), NotEmpty()))
  }

  function WithTitle(v: Vulnerability, title: string): string -> Finding {
    (id: string) => Finding(v.name, v.severity, id, title)
  }

  function WithId(v: Vulnerability): string -> Finding {
    WithTitle(v, Title(v))
  }

  function FromVulnerabilities(vs: seq<Vulnerability>): seq<Finding> {
    if vs == [] then []
    else FromVulnerabilities(vs[..|vs| - 1]) + Map(Ids(vs[|vs| - 1]), WithId(vs[|vs| - 1]))
  }

  function FindingsOf(audit: Audit): seq<Finding> {
    (if audit.advisories.Some? then Map(audit.advisories.value, FromAdvisory) else [])
    + (if audit.vulnerabilities.Some? then FromVulnerabilities(audit.vulnerabilities.value) else [])
  }

  method IterVulns(audit: Audit) returns (findings: seq<Finding>)
    ensures findings == FindingsOf(audit) && FoundIn(audit, findings)
  {
    FindingsAreFound(audit);
    hide FirstText, PickAdvisoryId, ItemId, ItemTitle, JoinTitles, Items, Filter, NotEmpty,
      FoundIn;
    findings := [];
    if audit.advisories.Some? {
      var advisories := audit.advisories.value;
      var i := 0;
      while i < |advisories|
        invariant 0 <= i <= |advisories|
        invariant findings == Map(advisories[..i], FromAdvisory)
      {
        findings := findings + [FromAdvisory(advisories[i])];
        i := i + 1;
      }
      assert advisories[..i] == advisories;
    }
    ghost var before := findings;
    if audit.vulnerabilities.Some? {
      var vs := audit.vulnerabilities.value;
      var i := 0;
      while i < |vs|
        invariant 0 <= i <= |vs|
        invariant findings == before + FromVulnerabilities(vs[..i])
      {
        var ids, titles := ItemTexts(vs[i].via);
        var found := PerId(ids, WithTitle(vs[i], JoinTitles(Filter(titles, NotEmpty()))));
        assert vs[..i + 1][..i] == vs[..i];
        AppendAssociates(before, FromVulnerabilities(vs[..i]), found);
        findings := findings + found;
        i := i + 1;
      }
      assert vs[..i] == vs;
    }
  }

  /** Collects an id and a title, either possibly empty, from each item. */
  method ItemTexts(via: Via) returns (ids: seq<string>, titles: seq<string>)
    ensures Filter(ids, NotEmpty()) == Filter(Map(Items(via), ItemId), NotEmpty())
    ensures Filter(titles, NotEmpty()) == Filter(Map(Items(via), ItemTitle), NotEmpty())
  {
    ids, titles := [], [];
    match via
    case ViaList(items) =>
      var i := 0;
      while i < |items|
        invariant 0 <= i <= |items|
        invariant Filter(ids, NotEmpty()) == Filter(Map(items[..i], ItemId), NotEmpty())
        invariant Filter(titles, NotEmpty()) == Filter(Map(items[..i], ItemTitle), NotEmpty())
      {
        ghost var ids0, titles0 := ids, titles;
        match items[i] {
          case Detail(_, _, _, _, _, _) =>
            ids, titles := ids + [ItemId(items[i])], titles + [ItemTitle(items[i])];
          case Plain(text) =>
            ids, titles := ids + [text], titles + [text];
          case Ignored =>
        }
        OneMore(items, i, ItemId);
        OneMore(items, i, ItemTitle);
        FilterAppend(ids0, [ItemId(items[i])], NotEmpty());
        FilterAppend(titles0, [ItemTitle(items[i])], NotEmpty());
        i := i + 1;
      }
      assert items[..i] == items;
    case ViaText(text) =>
      ids, titles := [text], [text];
      assert Map([Plain(text)], ItemId) == [text] && Map([Plain(text)], ItemTitle) == [text];
    case ViaOther =>
  }

  lemma OneMore(items: seq<ViaItem>, i: nat, text: ViaItem -> string)
    requires i < |items|
    ensures Filter(Map(items[..i + 1], text), NotEmpty())
            == Filter(Map(items[..i], text), NotEmpty()) + Filter([text(items[i])], NotEmpty())
  {
    assert Map(items[..i + 1], text) == Map(items[..i], text) + [text(items[i])];
    FilterAppend(Map(items[..i], text), [text(items[i])], NotEmpty());
  }

  method PerId(ids: seq<string>, make: string -> Finding) returns (found: seq<Finding>)
    ensures found == Map(Filter(ids, NotEmpty()), make)
  {
    found := [];
    ghost var done: seq<string> := [];
    var i := 0;
    while i < |ids|
      invariant 0 <= i <= |ids|
      invariant done == ids[..i]
      invariant found == Map(Filter(done, NotEmpty()), make)
    {
      FilterSnoc(done, ids[i], NotEmpty());
      if ids[i] != "" {
        MapAppend(Filter(done, NotEmpty()), [ids[i]], make);
        found := found + [make(ids[i])];
      }
      done := done + [ids[i]];
      i := i + 1;
    }
    assert done == ids;
  }

  ghost predicate Reports(v: Vulnerability, f: Finding) {
    exists id :: id in Ids(v) && WithId(v)(id) == f
  }

  ghost predicate SomeReports(vs: seq<Vulnerability>, f: Finding) {
    exists v :: v in vs && Reports(v, f)
  }

  lemma SomeReportsGrows(init: seq<Vulnerability>, last: Vulnerability, f: Finding)
    ensures SomeReports(init + [last], f) <==> SomeReports(init, f) || Reports(last, f)
  {
    assert last in init + [last];
    if SomeReports(init, f) {
      var v :| v in init && Reports(v, f);
      assert v in init + [last];
    }
  }

  /** What the gate gets to see of the vulnerabilities: each once per item that has an id. */
  lemma {:induction false} SeenExactly(vs: seq<Vulnerability>, f: Finding)
    ensures f in FromVulnerabilities(vs) <==> SomeReports(vs, f)
    decreases |vs|
  {
    if vs != [] {
      var init, last := vs[..|vs| - 1], vs[|vs| - 1];
      assert vs == init + [last];
      SeenExactly(init, f);
      SomeReportsGrows(init, last, f);
      MapMember(Ids(last), WithId(last), f);
    }
  }

  /** A vulnerability whose items carry no id is not reported at all, whatever its severity. */
  lemma SilentEntry(v: Vulnerability)
    ensures (forall f :: !Reports(v, f)) <==> forall i :: 0 <= i < |Items(v.via)| ==> ItemId(Items(v.via)[i]) == ""
  {
    var texts := Map(Items(v.via), ItemId);
    if forall i :: 0 <= i < |Items(v.via)| ==> ItemId(Items(v.via)[i]) == "" {
      FilterNone(texts, NotEmpty());
    } else {
      var i :| 0 <= i < |Items(v.via)| && ItemId(Items(v.via)[i]) != "";
      FilterKeeps(texts, NotEmpty(), texts[i]);
      assert Reports(v, WithId(v)(texts[i]));
    }
  }

  // ---------------------------------------------------------------- the findings, said field by field

  /** The finding of an advisory: its module's name or its name; of the GitHub id, the URL, the first CVE, the id and
      the texts the first that is not empty; and a title in the same way. */
  predicate FindingFrom(a: Advisory, f: Finding) {
    && f.name == (if a.moduleName != "" then a.moduleName else a.name)
    && f.severity == a.severity
    && f.advisory == (if a.ghsa != "" then a.ghsa
                      else if a.url != "" then a.url
                      else if a.cves != [] && a.cves[0] != "" then a.cves[0]
                      else if a.id != "" then a.id
                      else if a.title != "" then a.title
                      else if a.advisory != "" then a.advisory
                      else a.overview)
    && f.title == (if a.title != "" then a.title
                   else if a.advisory != "" then a.advisory
                   else if a.overview != "" then a.overview
                   else a.url)
  }

  /** The id of an item: of a GitHub id, URL, source, title and name the first that is not empty, or the item's text. */
  predicate IdOf(i: ViaItem, id: string) {
    match i
    case Detail(ghsa, url, source, title, name, _) =>
      id == (if ghsa != "" then ghsa else if url != "" then url else if source != "" then source
             else if title != "" then title else name)
    case Plain(text) => id == text
    case Ignored => id == ""
  }

  /** The title of an item: of title, URL, advisory and source the first that is not empty, or the item's text. */
  predicate TitleOf(i: ViaItem, t: string) {
    match i
    case Detail(_, url, source, title, _, advisory) =>
      t == (if title != "" then title else if url != "" then url else if advisory != "" then advisory else source)
    case Plain(text) => t == text
    case Ignored => t == ""
  }

  /** The titles that there are, one after the other. */
  function Joined(before: string, t: string): string {
    if t == "" then before else if before == "" then t else before + "; " + t
  }

  ghost predicate TitlesOf(items: seq<ViaItem>, title: string)
    decreases |items|
  {
    if items == [] then title == ""
    else exists before, t ::
      TitlesOf(items[..|items| - 1], before) && TitleOf(items[|items| - 1], t) && title == Joined(before, t)
  }

  ghost predicate HasId(i: ViaItem) {
    !IdOf(i, "")
  }

  /** One finding for each item that has an id, in order, all with the vulnerability's name and severity and the titles
      of all items. */
  ghost predicate YieldedAt(v: Vulnerability, items: seq<ViaItem>, fs: seq<Finding>, places: seq<nat>) {
    && |places| == |fs| && Increasing(places)
    && (forall k :: 0 <= k < |fs| ==>
          && places[k] < |items| && IdOf(items[places[k]], fs[k].advisory) && fs[k].advisory != ""
          && fs[k].name == v.name && fs[k].severity == v.severity && TitlesOf(items, fs[k].title))
    && (forall i: nat :: i < |items| && HasId(items[i]) ==> i in places)
  }

  ghost predicate YieldedBy(v: Vulnerability, fs: seq<Finding>) {
    match v.via
    case ViaList(items) => exists places :: YieldedAt(v, items, fs, places)
    case ViaText(text) => exists places :: YieldedAt(v, [Plain(text)], fs, places)
    case ViaOther => fs == []
  }

  function Concat<T>(parts: seq<seq<T>>): seq<T> {
    if parts == [] then [] else Concat(parts[..|parts| - 1]) + parts[|parts| - 1]
  }

  ghost predicate EachFrom(advisories: seq<Advisory>, fs: seq<Finding>) {
    |fs| == |advisories| && forall i :: 0 <= i < |fs| ==> FindingFrom(advisories[i], fs[i])
  }

  ghost predicate EachYields(vs: seq<Vulnerability>, parts: seq<seq<Finding>>) {
    |parts| == |vs| && forall k :: 0 <= k < |vs| ==> YieldedBy(vs[k], parts[k])
  }

  /** The findings of the advisories, and then those of the vulnerabilities. */
  ghost predicate FoundIn(audit: Audit, fs: seq<Finding>) {
    exists first, parts ::
      && EachFrom(if audit.advisories.Some? then audit.advisories.value else [], first)
      && EachYields(if audit.vulnerabilities.Some? then audit.vulnerabilities.value else [], parts)
      && fs == first + Concat(parts)
  }

  lemma AdvisoryFound(a: Advisory)
    ensures FindingFrom(a, FromAdvisory(a))
  {
    FirstOfSeven(a.ghsa, a.url, if a.cves == [] then "" else a.cves[0], a.id, a.title, a.advisory, a.overview);
    FirstOfFour(a.title, a.advisory, a.overview, a.url);
    FirstOfTwo(a.moduleName, a.name);
  }

  lemma FirstOfOne(a: string)
    ensures FirstText([a]) == a
  {
    assert [a][1..] == [];
  }

  lemma FirstOfTwo(a: string, b: string)
    ensures FirstText([a, b]) == if a != "" then a else b
  {
    assert [a, b][1..] == [b];
    FirstOfOne(b);
  }

  lemma FirstOfFour(a: string, b: string, c: string, d: string)
    ensures FirstText([a, b, c, d]) == if a != "" then a else if b != "" then b else if c != "" then c else d
  {
    assert [a, b, c, d][1..] == [b, c, d] && [b, c, d][1..] == [c, d];
    FirstOfTwo(c, d);
  }

  lemma FirstOfFive(a: string, b: string, c: string, d: string, e: string)
    ensures FirstText([a, b, c, d, e])
            == if a != "" then a else if b != "" then b else if c != "" then c else if d != "" then d else e
  {
    assert [a, b, c, d, e][1..] == [b, c, d, e];
    FirstOfFour(b, c, d, e);
  }

  lemma FirstOfSeven(a: string, b: string, c: string, d: string, e: string, f: string, g: string)
    ensures FirstText([a, b, c, d, e, f, g])
            == if a != "" then a else if b != "" then b else if c != "" then c else if d != "" then d
               else if e != "" then e else if f != "" then f else g
  {
    assert [a, b, c, d, e, f, g][1..] == [b, c, d, e, f, g] && [b, c, d, e, f, g][1..] == [c, d, e, f, g];
    FirstOfFive(c, d, e, f, g);
  }

  lemma ItemFound(i: ViaItem)
    ensures IdOf(i, ItemId(i)) && TitleOf(i, ItemTitle(i))
    ensures forall id :: IdOf(i, id) ==> id == ItemId(i)
  {
    match i
    case Detail(g, u, s, t, n, a) =>
      FirstOfFive(g, u, s, t, n);
      FirstOfFour(t, u, a, s);
    case Plain(_) =>
    case Ignored =>
  }

  lemma {:induction false} JoinSnoc(titles: seq<string>, t: string)
    requires titles != []
    ensures JoinTitles(titles + [t]) == JoinTitles(titles) + "; " + t
  {
    assert (titles + [t])[1..] == titles[1..] + [t];
    if |titles| > 1 {
      JoinSnoc(titles[1..], t);
    }
  }

  lemma {:induction false} JoinedNotEmpty(titles: seq<string>)
    requires forall i :: 0 <= i < |titles| ==> titles[i] != ""
    ensures JoinTitles(titles) == "" <==> titles == []
  {
  }

  lemma OneMoreTitle(titles: seq<string>, t: string)
    requires JoinTitles(titles) == "" <==> titles == []
    ensures JoinTitles(titles + if t != "" then [t] else []) == Joined(JoinTitles(titles), t)
  {
    if t == "" {
      assert titles + [] == titles;
    } else if titles != [] {
      JoinSnoc(titles, t);
    } else {
      assert titles + [t] == [t];
    }
  }

  lemma {:induction false} TitlesFound(items: seq<ViaItem>)
    ensures TitlesOf(items, JoinTitles(Filter(Map(items, ItemTitle), NotEmpty())))
    decreases |items|
  {
    if items == [] {
      assert Map(items, ItemTitle) == [];
    } else {
      var init, last := items[..|items| - 1], items[|items| - 1];
      var titles, t := Filter(Map(init, ItemTitle), NotEmpty()), ItemTitle(last);
      TitlesFound(init);
      ItemFound(last);
      assert Map(items, ItemTitle) == Map(init, ItemTitle) + [t];
      FilterSnoc(Map(init, ItemTitle), t, NotEmpty());
      JoinedNotEmpty(titles);
      OneMoreTitle(titles, t);
      assert TitlesOf(init, JoinTitles(titles)) && TitleOf(last, t);
      assert JoinTitles(Filter(Map(items, ItemTitle), NotEmpty())) == Joined(JoinTitles(titles), t);
    }
  }

  lemma ItemsYield(v: Vulnerability, items: seq<ViaItem>)
    requires Items(v.via) == items
    ensures exists places :: YieldedAt(v, items, Map(Ids(v), WithId(v)), places)
  {
    hide ItemId, ItemTitle, JoinTitles, TitlesOf, IdOf, Filter;
    var texts, fs := Map(items, ItemId), Map(Ids(v), WithId(v));
    var places := FilterPlaces(texts, NotEmpty());
    TitlesFound(items);
    forall k | 0 <= k < |fs|
      ensures places[k] < |items| && IdOf(items[places[k]], fs[k].advisory) && fs[k].advisory != ""
    {
      assert NotEmpty()(Ids(v)[k]);
      ItemFound(items[places[k]]);
    }
    forall i: nat | i < |items| && HasId(items[i])
      ensures i in places
    {
      ItemFound(items[i]);
      assert NotEmpty()(texts[i]);
    }
    assert YieldedAt(v, items, fs, places);
  }

  lemma VulnerabilityYields(v: Vulnerability)
    ensures YieldedBy(v, Map(Ids(v), WithId(v)))
  {
    hide YieldedAt, ItemId, ItemTitle;
    if v.via.ViaOther? {
      assert Map(Items(v.via), ItemId) == [];
    } else {
      ItemsYield(v, Items(v.via));
    }
  }

  lemma {:induction false} AllYield(vs: seq<Vulnerability>) returns (parts: seq<seq<Finding>>)
    ensures EachYields(vs, parts) && FromVulnerabilities(vs) == Concat(parts)
    decreases |vs|
  {
    hide YieldedBy, Ids, WithId;
    parts := [];
    if vs != [] {
      var init, last := vs[..|vs| - 1], vs[|vs| - 1];
      var before := AllYield(init);
      VulnerabilityYields(last);
      parts := before + [Map(Ids(last), WithId(last))];
      assert parts[..|parts| - 1] == before;
    }
  }

  /** What the gate decides on is what the report says. */
  lemma FindingsAreFound(audit: Audit)
    ensures FoundIn(audit, FindingsOf(audit))
  {
    hide FindingFrom, EachYields, Concat;
    var advisories := if audit.advisories.Some? then audit.advisories.value else [];
    var vs := if audit.vulnerabilities.Some? then audit.vulnerabilities.value else [];
    forall i | 0 <= i < |advisories|
      ensures FindingFrom(advisories[i], FromAdvisory(advisories[i]))
    {
      AdvisoryFound(advisories[i]);
    }
    var parts := AllYield(vs);
    var first := Map(advisories, FromAdvisory);
    assert EachFrom(advisories, first);
    assert FindingsOf(audit) == first + Concat(parts);
  }
}
