/** The version-format and migration checks of tools/check_release_contract.py, and what the
    migration check is worth over a whole history of releases. */
module ReleaseContract {
  import opened Common
  import opened Text
  import opened ReleaseVersion

  datatype Message =
    | BadVersionFormat
    | VersionComponentTooLarge
    | PublishedMigrationChanged(status: string, base: Version)

  /** The list of errors that every check appends to. */
  class ErrorLog {
    var items: seq<Message>

    constructor ()
      ensures items == []
    {
      items := [];
    }

    method Append(m: Message)
      modifies this
      ensures items == old(items) + [m]
    {
      items := items + [m];
    }
  }

  // ---------------------------------------------------------------- version format

  /** A full match of the version pattern, cut at the dots: three numerals. */
  function Fields(s: string): (r: Option<(string, string, string)>)
    ensures r.Some? ==> Canonical(r.value.0) && Canonical(r.value.1) && Canonical(r.value.2)
  {
    var parts := Split(s, '.');
    if |parts| == 3 && Canonical(parts[0]) && Canonical(parts[1]) && Canonical(parts[2])
    then Some((parts[0], parts[1], parts[2]))
    else None
  }

  method CheckVersionFormat(file: string, max: nat, errors: ErrorLog)
    modifies errors
    ensures errors.items == old(errors.items) + VersionMessages(Parse(file, max))
  {
    var fields := Fields(Strip(file));
    if fields.None? {
      errors.Append(BadVersionFormat);
    } else {
      var (a, b, c) := fields.value;
      if DecValue(a) > max || DecValue(b) > max || DecValue(c) > max {
        errors.Append(VersionComponentTooLarge);
      }
      assert Judge(a, b, c, max).Ok? <==> errors.items == old(errors.items);
    }
    ParseByFields(file, max);
  }

  /** Nothing is reported of a bounded version, an over-large component of a version beyond the bound, and the format of
      everything else. */
  lemma ReportedExactly(file: string, max: nat)
    ensures VersionMessages(Parse(file, max)) == [] <==> exists v :: Strip(file) == Format(v) && InBound(v, max)
    ensures VersionMessages(Parse(file, max)) == [VersionComponentTooLarge]
            <==> exists v :: Strip(file) == Format(v) && !InBound(v, max)
    ensures VersionMessages(Parse(file, max)) == [BadVersionFormat] <==> forall v :: Strip(file) != Format(v)
  {
    hide Parse, Strip, Format;
    RefusedExactly(file, max);
    if Parse(file, max).Ok? {
      ParseExact(file, Parse(file, max).value, max);
    } else {
      forall v | InBound(v, max)
        ensures Strip(file) != Format(v)
      {
        ParseExact(file, v, max);
      }
    }
  }

  lemma ParseByFields(file: string, max: nat)
    ensures Parse(file, max)
            == match Fields(Strip(file))
               case None => Err(NotATriple)
               case Some((a, b, c)) => Judge(a, b, c, max)
  {
    FieldsAreGroups(Strip(file));
  }

  /** What the release contract reports about a version file, given the version tool's verdict on it. */
  function VersionMessages(parsed: Result<Version, VersionError>): seq<Message> {
    match parsed
    case Ok(_) => []
    case Err(NotATriple) => [BadVersionFormat]
    case Err(ComponentTooLarge) => [VersionComponentTooLarge]
  }

  lemma FieldsOfTriple(a: string, b: string, c: string)
    requires Canonical(a) && Canonical(b) && Canonical(c)
    ensures Fields(a + "." + b + "." + c) == Some((a, b, c))
  {
    DotsAssociate(a, b, c);
    SplitFirst(a, '.', b + "." + c);
    SplitFirst(b, '.', c);
    SplitWhole(c, '.');
  }

  lemma FieldsJoined(s: string)
    requires Fields(s).Some?
    ensures var (a, b, c) := Fields(s).value; s == a + "." + b + "." + c
  {
    var t1 := SplitRejoin(s, '.');
    var t2 := SplitRejoin(t1, '.');
    var t3 := SplitRejoin(t2, '.');
    var (a, b, c) := Fields(s).value;
    DotsAssociate(a, b, c);
  }

  lemma GroupsOfTriple(a: string, b: string, c: string)
    requires Canonical(a) && Canonical(b) && Canonical(c)
    ensures Groups(a + "." + b + "." + c) == Some((a, b, c))
  {
    DecOfDecValue(a);
    DecOfDecValue(b);
    DecOfDecValue(c);
    GroupsOfFormat(Version(DecValue(a), DecValue(b), DecValue(c)));
  }

  /** Cutting at the dots finds the same triples, with the same fields, as matching from the left. */
  lemma FieldsAreGroups(s: string)
    ensures Fields(s) == Groups(s)
  {
    if Groups(s).Some? {
      var (a, b, c) := Groups(s).value;
      FieldsOfTriple(a, b, c);
    } else if Fields(s).Some? {
      var (a, b, c) := Fields(s).value;
      FieldsJoined(s);
      GroupsOfTriple(a, b, c);
    }
  }

  // ---------------------------------------------------------------- migration diff

  /** The migration directory of one commit: contents by path. */
  type Tree = map<string, string>

  /** One line of `git diff --name-status`. */
  datatype Change =
    | Added(path: string)
    | Modified(path: string)
    | Deleted(path: string)
    | Renamed(from: string, to: string, score: nat)

  function Render(c: Change): string {
    match c
    case Added(p) => "A" + "\t" + p
    case Modified(p) => "M" + "\t" + p
    case Deleted(p) => "D" + "\t" + p
    case Renamed(f, t, n) => ("R" + Dec(n)) + "\t" + (f + "\t" + t)
  }

  /** What git reports between two trees: each difference in some line, and nothing else. */
  ghost predicate IsDiff(base: Tree, work: Tree, changes: seq<Change>) {
    && (forall c :: c in changes ==>
          match c
          case Added(p) => p in work && p !in base
          case Modified(p) => p in work && p in base && work[p] != base[p]
          case Deleted(p) => p in base && p !in work
          case Renamed(f, t, _) => f in base && f !in work && t in work && t !in base)
    && (forall p :: p in base && p !in work ==> exists c :: c in changes && Removes(c, p))
    && (forall p :: p in base && p in work && base[p] != work[p] ==> Modified(p) in changes)
  }

  predicate Removes(c: Change, p: string) {
    match c
    case Deleted(q) => p == q
    case Renamed(f, _, _) => p == f
    case _ => false
  }

  /** Everything in base is still there, unchanged. */
  ghost predicate Extends(base: Tree, work: Tree) {
    forall p :: p in base ==> p in work && work[p] == base[p]
  }

  /** Tags as git lists them; only v<number>.<number>.<number> ones are stable. */
  datatype Tag = Stable(version: Version) | Other(name: string)

  /** The first listed stable tag that is not at HEAD. */
  function BaseTag(tags: seq<Tag>, headTags: set<Tag>): Option<Version> {
    if tags == [] then None
    else if tags[0].Stable? && tags[0] !in headTags then Some(tags[0].version)
    else BaseTag(tags[1..], headTags)
  }

  function Violations(lines: seq<string>, base: Version): seq<Message> {
    if lines == [] then []
    else (if lines[0] == "" || Split(lines[0], '\t')[0] == "A" then []
          else [PublishedMigrationChanged(Split(lines[0], '\t')[0], base)])
         + Violations(lines[1..], base)
  }

  function MigrationMessages(
      tags: Option<seq<Tag>>, headTags: set<Tag>, diff: Version -> seq<string>): seq<Message>
  {
    if tags.None? || BaseTag(tags.value, headTags).None? then []
    else var base := BaseTag(tags.value, headTags).value; Violations(diff(base), base)
  }

  /** `tags` is None when git is unavailable; `diff` gives the name-status lines against a tag. */
  method CheckMigrationImmutability(
      tags: Option<seq<Tag>>, headTags: set<Tag>, diff: Version -> seq<string>, errors: ErrorLog)
    modifies errors
    ensures errors.items == old(errors.items) + MigrationMessages(tags, headTags, diff)
  {
    if tags.None? {
      return;
    }
    var stable: seq<Version> := [];
    var t := 0;
    while t < |tags.value|
      invariant 0 <= t <= |tags.value|
      invariant BaseTag(tags.value, headTags)
                == if stable == [] then BaseTag(tags.value[t..], headTags) else Some(stable[0])
    {
      if tags.value[t].Stable? && tags.value[t] !in headTags {
        stable := stable + [tags.value[t].version];
      }
      t := t + 1;
    }
    if stable == [] {
      return;
    }
    var base := stable[0];
    var lines := diff(base);
    var i := 0;
    while i < |lines|
      invariant 0 <= i <= |lines|
      invariant errors.items + Violations(lines[i..], base) == old(errors.items) + Violations(lines, base)
    {
      if lines[i] != "" {
        var status := Split(lines[i], '\t')[0];
        if status != "A" {
          errors.Append(PublishedMigrationChanged(status, base));
        }
      }
      i := i + 1;
    }
  }

  lemma AddedStatus(c: Change)
    ensures Render(c) != ""
    ensures Split(Render(c), '\t')[0] == "A" <==> c.Added?
  {
    match c
    case Added(p) => SplitFirst("A", '\t', p);
    case Modified(p) => SplitFirst("M", '\t', p);
    case Deleted(p) => SplitFirst("D", '\t', p);
    case Renamed(f, t, n) =>
      SplitFirst("R" + Dec(n), '\t', f + "\t" + t);
  }

  lemma {:induction false} NoViolations(changes: seq<Change>, base: Version)
    ensures Violations(Map(changes, Render), base) == [] <==> forall c :: c in changes ==> c.Added?
  {
    if changes != [] {
      AddedStatus(changes[0]);
      assert Map(changes, Render)[1..] == Map(changes[1..], Render);
      NoViolations(changes[1..], base);
    }
  }

  function NotAdded(): Change -> bool {
    (c: Change) => !c.Added?
  }

  /** The status letter that git gives a change that is no addition, with the score of a renaming. */
  function Reported(base: Version): Change -> Message {
    (c: Change) =>
      PublishedMigrationChanged(
        if c.Modified? then "M" else if c.Deleted? then "D" else if c.Renamed? then "R" + Dec(c.score) else "A", base)
  }

  lemma StatusOf(c: Change, base: Version)
    requires !c.Added?
    ensures PublishedMigrationChanged(Split(Render(c), '\t')[0], base) == Reported(base)(c)
  {
    match c
    case Modified(p) => SplitFirst("M", '\t', p);
    case Deleted(p) => SplitFirst("D", '\t', p);
    case Renamed(f, t, n) => SplitFirst("R" + Dec(n), '\t', f + "\t" + t);
  }

  /** The check reports every change of a diff that is no addition, in order, each with its status. */
  lemma {:induction false} ReportsAll(changes: seq<Change>, base: Version)
    ensures Violations(Map(changes, Render), base) == Map(Filter(changes, NotAdded()), Reported(base))
  {
    hide Render;
    if changes == [] {
      assert Map(changes, Render) == [];
    } else {
      AddedStatus(changes[0]);
      assert Map(changes, Render)[1..] == Map(changes[1..], Render);
      ReportsAll(changes[1..], base);
      if !changes[0].Added? {
        StatusOf(changes[0], base);
        MapHead(changes[0], Filter(changes[1..], NotAdded()), Reported(base));
      }
    }
  }

  /** Empty lines are skipped. */
  lemma {:induction false} EmptyLinesSkipped(us: seq<string>, vs: seq<string>, base: Version)
    ensures Violations(us + [""] + vs, base) == Violations(us + vs, base)
  {
    if us == [] {
      assert us + [""] + vs == [""] + vs && us + vs == vs && ([""] + vs)[1..] == vs;
    } else {
      assert (us + [""] + vs)[1..] == us[1..] + [""] + vs && (us + vs)[1..] == us[1..] + vs;
      EmptyLinesSkipped(us[1..], vs, base);
    }
  }

  /** The check is silent about a diff exactly when nothing of the base was changed, removed or renamed. */
  lemma CheckIsExact(baseTree: Tree, work: Tree, changes: seq<Change>, base: Version)
    requires IsDiff(baseTree, work, changes)
    ensures Violations(Map(changes, Render), base) == [] <==> Extends(baseTree, work)
  {
    NoViolations(changes, base);
    if Extends(baseTree, work) {
      forall c | c in changes
        ensures c.Added?
      {
      }
    }
  }

  // ---------------------------------------------------------------- histories of releases

  datatype Release = Release(version: Version, commit: nat)

  /** The newest release, by version. */
  function Newest(rs: seq<Release>): (r: Option<Release>)
    ensures r.None? <==> rs == []
    ensures r.Some? ==> r.value in rs && forall s :: s in rs ==> !Before(r.value.version, s.version)
  {
    if rs == [] then None
    else
      var best := Newest(rs[1..]);
      if best.None? || BeforeOrSame(best.value.version, rs[0].version) then Some(rs[0]) else best
  }

  predicate BeforeOrSame(v: Version, w: Version)
    ensures BeforeOrSame(v, w) <==> !Before(w, v)
  {
    v.major < w.major
    || (v.major == w.major && (v.minor < w.minor || (v.minor == w.minor && v.patch <= w.patch)))
  }

  function NotAt(commit: nat): Release -> bool {
    (r: Release) => r.commit != commit
  }

  /** The release a candidate at `commit` is compared with. */
  function BaseRelease(past: seq<Release>, commit: nat): Option<Release> {
    Newest(Filter(past, NotAt(commit)))
  }

  /** The candidate's own tag, already present or not, does not change what it is compared with. */
  lemma OwnTagIsIgnored(past: seq<Release>, head: Release)
    ensures BaseRelease(past + [head], head.commit) == BaseRelease(past, head.commit)
  {
    FilterAppend(past, [head], NotAt(head.commit));
    assert Filter([head], NotAt(head.commit)) == [];
    assert Filter(past, NotAt(head.commit)) + [] == Filter(past, NotAt(head.commit));
  }

  /** Tags listed newest first, those at HEAD set aside: the script compares with the newest release. */
  lemma {:induction false} BaseTagIsNewest(tags: seq<Tag>, headTags: set<Tag>, past: seq<Release>, commit: nat)
    requires forall i, j :: 0 <= i < j < |tags| && tags[i].Stable? && tags[j].Stable? ==>
      Before(tags[j].version, tags[i].version)
    requires forall r :: r in past && r.commit != commit ==> Stable(r.version) in tags && Stable(r.version) !in headTags
    requires forall t :: t in tags && t.Stable? && t !in headTags ==>
      exists r :: r in past && r.version == t.version && r.commit != commit
    ensures BaseTag(tags, headTags)
            == match BaseRelease(past, commit) case None => None case Some(r) => Some(r.version)
  {
    var k := FirstCandidate(tags, headTags);
    var kept := Filter(past, NotAt(commit));
    if k == |tags| {
      forall r | r in past
        ensures r.commit == commit
      {
      }
      FilterNone(past, NotAt(commit));
    } else {
      var r :| r in past && r.version == tags[k].version && r.commit != commit;
      FilterKeeps(past, NotAt(commit), r);
      FilterFrom(past, NotAt(commit));
      var best := Newest(kept).value;
      assert Stable(best.version) in tags;
      var m :| 0 <= m < |tags| && tags[m] == Stable(best.version);
      assert m >= k;
    }
  }

  lemma {:induction false} FirstCandidate(tags: seq<Tag>, headTags: set<Tag>) returns (k: nat)
    ensures k <= |tags|
    ensures forall i :: 0 <= i < k ==> !tags[i].Stable? || tags[i] in headTags
    ensures k == |tags| ==> BaseTag(tags, headTags).None?
    ensures k < |tags| ==>
      tags[k].Stable? && tags[k] !in headTags && BaseTag(tags, headTags) == Some(tags[k].version)
  {
    if tags == [] || (tags[0].Stable? && tags[0] !in headTags) {
      k := 0;
    } else {
      k := FirstCandidate(tags[1..], headTags);
      k := k + 1;
    }
  }

  /** The check passes for a candidate at `commit`. */
  ghost predicate Passes(past: seq<Release>, commit: nat, tree: nat -> Tree) {
    var base := BaseRelease(past, commit);
    base.Some? ==> Extends(tree(base.value.commit), tree(commit))
  }

  /** What one run of the check decides: with the tags of the past releases in git, it is silent exactly
      when nothing published by the newest of them (HEAD's own tags set aside) was changed. */
  lemma SilenceMeansPass(
      tags: seq<Tag>, headTags: set<Tag>, past: seq<Release>, commit: nat, tree: nat -> Tree,
      changes: Version -> seq<Change>)
    requires forall i, j :: 0 <= i < j < |tags| && tags[i].Stable? && tags[j].Stable? ==>
      Before(tags[j].version, tags[i].version)
    requires forall r :: r in past && r.commit != commit ==> Stable(r.version) in tags && Stable(r.version) !in headTags
    requires forall t :: t in tags && t.Stable? && t !in headTags ==>
      exists r :: r in past && r.version == t.version && r.commit != commit
    requires forall r :: r in past ==> IsDiff(tree(r.commit), tree(commit), changes(r.version))
    ensures MigrationMessages(Some(tags), headTags, (v: Version) => Map(changes(v), Render)) == []
            <==> Passes(past, commit, tree)
  {
    BaseTagIsNewest(tags, headTags, past, commit);
    var base := BaseRelease(past, commit);
    if base.Some? {
      var v := base.value.version;
      FilterFrom(past, NotAt(commit));
      assert base.value in past;
      CheckIsExact(tree(base.value.commit), tree(commit), changes(v), v);
    }
  }

  ghost predicate AllPass(h: seq<Release>, tree: nat -> Tree) {
    forall i :: 0 <= i < |h| ==> Passes(h[..i], h[i].commit, tree)
  }

  /** Every migration of every release is in all later releases, unchanged. */
  ghost predicate Immutable(h: seq<Release>, tree: nat -> Tree) {
    forall i, j :: 0 <= i < j < |h| ==> Extends(tree(h[i].commit), tree(h[j].commit))
  }

  ghost predicate Increasing(h: seq<Release>) {
    forall i, j :: 0 <= i < j < |h| ==> Before(h[i].version, h[j].version)
  }

  /** With increasing versions the base is the latest earlier release at another commit. */
  lemma BaseIsLatest(h: seq<Release>, j: nat, i: nat)
    requires i < j < |h| && Increasing(h[..j]) && h[i].commit != h[j].commit
    ensures BaseRelease(h[..j], h[j].commit).Some?
    ensures exists m :: i <= m < j && BaseRelease(h[..j], h[j].commit).value == h[m]
  {
    var past := h[..j];
    var kept := Filter(past, NotAt(h[j].commit));
    FilterKeeps(past, NotAt(h[j].commit), past[i]);
    FilterFrom(past, NotAt(h[j].commit));
    var best := Newest(kept).value;
    assert best in past;
    var m :| 0 <= m < j && past[m] == best;
    assert m >= i;
    assert best == h[m];
  }

  lemma {:induction false} KeptUpTo(h: seq<Release>, tree: nat -> Tree, i: nat, j: nat)
    requires AllPass(h, tree) && i < j < |h| && Increasing(h[..j])
    ensures Extends(tree(h[i].commit), tree(h[j].commit))
    decreases j
  {
    if h[i].commit != h[j].commit {
      BaseIsLatest(h, j, i);
      assert Passes(h[..j], h[j].commit, tree);
      var m :| i <= m < j && BaseRelease(h[..j], h[j].commit).value == h[m];
      if i < m {
        assert Increasing(h[..m]) by {
          assert forall k :: 0 <= k < m ==> h[..m][k] == h[..j][k];
        }
        KeptUpTo(h, tree, i, m);
      }
    }
  }

  /** Published migrations stay as they are over every run of passing releases with increasing versions;
      the last version may even be out of order. */
  lemma IncreasingRunsAreImmutable(h: seq<Release>, tree: nat -> Tree)
    requires AllPass(h, tree) && (h == [] || Increasing(h[..|h| - 1]))
    ensures Immutable(h, tree)
  {
    forall i, j | 0 <= i < j < |h|
      ensures Extends(tree(h[i].commit), tree(h[j].commit))
    {
      assert Increasing(h[..j]) by {
        assert forall k :: 0 <= k < j ==> h[..j][k] == h[..|h| - 1][k];
      }
      KeptUpTo(h, tree, i, j);
    }
  }

  /** Trees in which only release j has a migration. */
  function OnlyAt(commit: nat): nat -> Tree {
    (c: nat) => if c == commit then map["001.sql" := "create"] else map[]
  }

  /** A release that an earlier one outranks is never compared with again, so its migrations can be lost. */
  lemma OutrankedReleaseIsForgotten(h: seq<Release>, k: nat, j: nat)
    requires k < j < |h| - 1 && !Before(h[k].version, h[j].version)
    requires forall a, b :: 0 <= a < b < |h| ==> h[a].version != h[b].version && h[a].commit != h[b].commit
    ensures AllPass(h, OnlyAt(h[j].commit)) && !Immutable(h, OnlyAt(h[j].commit))
  {
    var tree := OnlyAt(h[j].commit);
    forall i | 0 <= i < |h|
      ensures Passes(h[..i], h[i].commit, tree)
    {
      var kept := Filter(h[..i], NotAt(h[i].commit));
      var base := Newest(kept);
      FilterFrom(h[..i], NotAt(h[i].commit));
      if base.Some? {
        var m :| 0 <= m < i && h[..i][m] == base.value;
        assert h[m] == base.value;
        if i > j {
          assert h[..i][k] == h[k] && h[k] in h[..i];
          FilterKeeps(h[..i], NotAt(h[i].commit), h[k]);
        }
        assert m != j;
      }
    }
    assert "001.sql" in tree(h[j].commit) && "001.sql" !in tree(h[j + 1].commit);
    assert !Extends(tree(h[j].commit), tree(h[j + 1].commit));
  }

  /** For distinct versions and commits, passing checks guarantee immutability exactly when the
      versions increase, the last one excepted. */
  lemma OrderDecidesImmutability(h: seq<Release>)
    requires h != []
    requires forall a, b :: 0 <= a < b < |h| ==> h[a].version != h[b].version && h[a].commit != h[b].commit
    ensures (forall tree: nat -> Tree :: AllPass(h, tree) ==> Immutable(h, tree)) <==> Increasing(h[..|h| - 1])
  {
    if Increasing(h[..|h| - 1]) {
      forall tree: nat -> Tree | AllPass(h, tree)
        ensures Immutable(h, tree)
      {
        IncreasingRunsAreImmutable(h, tree);
      }
    } else {
      var past := h[..|h| - 1];
      var k, j :| 0 <= k < j < |past| && !Before(past[k].version, past[j].version);
      OutrankedReleaseIsForgotten(h, k, j);
    }
  }

  /** Releases numbered by the version tool, one step after another, never lose a migration. */
  lemma {:induction false} SteppedRunsAreImmutable(h: seq<Release>, tree: nat -> Tree, max: nat)
    requires AllPass(h, tree)
    requires forall i :: 0 <= i < |h| ==> InBound(h[i].version, max)
    requires forall i :: 0 <= i < |h| - 1 ==> h[i + 1].version == Successor(h[i].version, max)
    ensures Increasing(h) && Immutable(h, tree)
  {
    forall i, j | 0 <= i < j < |h|
      ensures Before(h[i].version, h[j].version)
    {
      SteppedOrder(h, i, j, max);
    }
    if h != [] {
      assert Increasing(h[..|h| - 1]);
    }
    IncreasingRunsAreImmutable(h, tree);
  }

  lemma {:induction false} SteppedOrder(h: seq<Release>, i: nat, j: nat, max: nat)
    requires i < j < |h|
    requires forall i :: 0 <= i < |h| ==> InBound(h[i].version, max)
    requires forall i :: 0 <= i < |h| - 1 ==> h[i + 1].version == Successor(h[i].version, max)
    ensures Before(h[i].version, h[j].version)
    decreases j
  {
    if i < j - 1 {
      SteppedOrder(h, i, j - 1, max);
    }
    assert h[(j - 1) + 1].version == Successor(h[j - 1].version, max);
  }
}
