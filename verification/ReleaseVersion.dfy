/** Bounded three-part release versions (tools/release_version.py).
    The bound on each component is the parameter `max`; the tool uses MAX_COMPONENT. */
module ReleaseVersion {
  import opened Common
  import opened Text

  const MAX_COMPONENT: nat := 99

  datatype Version = Version(major: nat, minor: nat, patch: nat)

  datatype VersionError = NotATriple | ComponentTooLarge

  predicate InBound(v: Version, max: nat) {
    v.major <= max && v.minor <= max && v.patch <= max
  }

  function Format(v: Version): string {
    Dec(v.major) + "." + Dec(v.minor) + "." + Dec(v.patch)
  }

  function DigitRun(s: string): (n: nat)
    ensures n <= |s| && AllDigits(s[..n])
    ensures n < |s| ==> !IsDigit(s[n])
  {
    if s == "" || !IsDigit(s[0]) then 0 else 1 + DigitRun(s[1..])
  }

  /** A lone zero, or digits without a leading zero. */
  predicate Canonical(s: string) {
    s != "" && AllDigits(s) && (s[0] == '0' ==> |s| == 1)
  }

  /** One numeral group of VERSION_PATTERN: a lone zero, or a digit run without a leading zero. */
  function TakeNumeral(s: string): (r: Option<(string, string)>)
    ensures r.Some? ==>
      && s == r.value.0 + r.value.1 && Canonical(r.value.0)
  {
    if s == "" || !IsDigit(s[0]) then None
    else if s[0] == '0' then Some((s[..1], s[1..]))
    else Some((s[..DigitRun(s)], s[DigitRun(s)..]))
  }

  /** A numeral group followed by a literal dot. */
  function TakeNumeralDot(s: string): (r: Option<(string, string)>)
    ensures r.Some? ==>
      && s == r.value.0 + "." + r.value.1 && Canonical(r.value.0)
  {
    match TakeNumeral(s)
    case None => None
    case Some((a, rest)) => if rest == "" || rest[0] != '.' then None else Some((a, rest[1..]))
  }

  lemma DotsAssociate(a: string, b: string, c: string)
    ensures a + "." + (b + "." + c) == a + "." + b + "." + c
  {
  }

  /** The three groups of a full match of VERSION_PATTERN. */
  function Groups(s: string): (r: Option<(string, string, string)>)
    ensures r.Some? ==>
      && s == r.value.0 + "." + r.value.1 + "." + r.value.2
      && Canonical(r.value.0) && Canonical(r.value.1) && Canonical(r.value.2)
  {
    match TakeNumeralDot(s)
    case None => None
    case Some((a, r1)) =>
      match TakeNumeralDot(r1)
      case None => None
      case Some((b, r2)) =>
        match TakeNumeral(r2)
        case None => None
        case Some((c, r3)) =>
          DotsAssociate(a, b, c);
          if r3 == "" then Some((a, b, c)) else None
  }

  /** The three numerals as numbers, held to the bound. */
  function Judge(a: string, b: string, c: string, max: nat): Result<Version, VersionError>
    requires Canonical(a) && Canonical(b) && Canonical(c)
  {
    var v := Version(DecValue(a), DecValue(b), DecValue(c));
    if InBound(v, max) then Ok(v) else Err(ComponentTooLarge)
  }

  function Parse(text: string, max: nat): Result<Version, VersionError> {
    match Groups(Strip(text))
    case None => Err(NotATriple)
    case Some((a, b, c)) => Judge(a, b, c, max)
  }

  function NextVersion(text: string, max: nat): Result<string, VersionError> {
    match Parse(text, max)
    case Err(e) => Err(e)
    case Ok(v) => Ok(Format(Successor(v, max)))
  }

  function Successor(v: Version, max: nat): Version {
    if v.patch < max then Version(v.major, v.minor, v.patch + 1)
    else if v.minor < max then Version(v.major, v.minor + 1, 0)
    else Version(v.major + 1, 0, 0)
  }

  /** Position of a version in release order, as a mixed-radix number. */
  function Value(v: Version, max: nat): int {
    (v.major * (max + 1) + v.minor) * (max + 1) + v.patch
  }

  ghost predicate Before(v: Version, w: Version) {
    v.major < w.major
    || (v.major == w.major && (v.minor < w.minor || (v.minor == w.minor && v.patch < w.patch)))
  }

  lemma {:induction false} DigitRunOf(d: string, rest: string)
    requires AllDigits(d) && (rest == "" || !IsDigit(rest[0]))
    ensures DigitRun(d + rest) == |d|
  {
    if d == "" {
      assert d + rest == rest;
    } else {
      assert (d + rest)[1..] == d[1..] + rest;
      DigitRunOf(d[1..], rest);
    }
  }

  lemma TakeNumeralOfDec(n: nat, rest: string)
    requires rest == "" || !IsDigit(rest[0])
    ensures TakeNumeral(Dec(n) + rest) == Some((Dec(n), rest))
  {
    var s := Dec(n) + rest;
    assert s[0] == Dec(n)[0];
    DigitRunOf(Dec(n), rest);
    assert s[..|Dec(n)|] == Dec(n) && s[|Dec(n)|..] == rest;
  }

  lemma TakeNumeralDotOfDec(n: nat, rest: string)
    ensures TakeNumeralDot(Dec(n) + "." + rest) == Some((Dec(n), rest))
  {
    assert Dec(n) + "." + rest == Dec(n) + ("." + rest);
    TakeNumeralOfDec(n, "." + rest);
  }

  lemma GroupsOfFormat(v: Version)
    ensures Groups(Format(v)) == Some((Dec(v.major), Dec(v.minor), Dec(v.patch)))
  {
    var r2 := Dec(v.patch);
    var r1 := Dec(v.minor) + "." + r2;
    assert Format(v) == Dec(v.major) + "." + r1;
    TakeNumeralDotOfDec(v.major, r1);
    TakeNumeralDotOfDec(v.minor, r2);
    assert r2 == Dec(v.patch) + "";
    TakeNumeralOfDec(v.patch, "");
  }

  lemma GroupsAreCanonical(s: string)
    requires Groups(s).Some?
    ensures var (a, b, c) := Groups(s).value; s == Format(Version(DecValue(a), DecValue(b), DecValue(c)))
  {
    var (a, b, c) := Groups(s).value;
    DecOfDecValue(a);
    DecOfDecValue(b);
    DecOfDecValue(c);
  }

  /** Canonical triples within the bound parse back to themselves. */
  lemma ParseInvertsFormat(text: string, v: Version, max: nat)
    requires Strip(text) == Format(v)
    ensures Parse(text, max) == if InBound(v, max) then Ok(v) else Err(ComponentTooLarge)
  {
    GroupsOfFormat(v);
    DecValueOfDec(v.major);
    DecValueOfDec(v.minor);
    DecValueOfDec(v.patch);
  }

  /** Nothing but a canonical triple is taken for a triple. */
  lemma ParsedIsCanonical(text: string, max: nat)
    requires Parse(text, max) != Err(NotATriple)
    ensures exists v :: Strip(text) == Format(v)
  {
    GroupsAreCanonical(Strip(text));
  }

  /** Parsing accepts exactly the trimmed canonical triples within the bound, and inverts formatting. */
  lemma ParseExact(text: string, v: Version, max: nat)
    ensures Parse(text, max) == Ok(v) <==> Strip(text) == Format(v) && InBound(v, max)
  {
    if Strip(text) == Format(v) {
      ParseInvertsFormat(text, v, max);
    }
    if Parse(text, max) == Ok(v) {
      ParsedIsCanonical(text, max);
      var w :| Strip(text) == Format(w);
      ParseInvertsFormat(text, w, max);
    }
  }

  /** Nothing but a canonical triple, and no component over the bound, is refused for what it is. */
  lemma RefusedExactly(text: string, max: nat)
    ensures Parse(text, max) == Err(ComponentTooLarge) <==> exists v :: Strip(text) == Format(v) && !InBound(v, max)
    ensures Parse(text, max) == Err(NotATriple) <==> forall v :: Strip(text) != Format(v)
  {
    if v :| Strip(text) == Format(v) {
      ParseInvertsFormat(text, v, max);
      forall w | Strip(text) == Format(w)
        ensures InBound(w, max) == InBound(v, max)
      {
        ParseInvertsFormat(text, w, max);
      }
    } else if Parse(text, max) != Err(NotATriple) {
      ParsedIsCanonical(text, max);
    }
  }

  /** A version in a file of its own parses, with the line end or with blanks around it. */
  lemma VersionFileParses(v: Version, pre: string, post: string, max: nat)
    requires AllSpace(pre) && AllSpace(post)
    ensures Parse(pre + Format(v) + post, max) == if InBound(v, max) then Ok(v) else Err(ComponentTooLarge)
  {
    hide Parse, Format, Strip, InBound;
    FormatTrimmed(v);
    StripIsTrimmed(Format(v));
    StripPadded(pre, Format(v), post);
    ParseInvertsFormat(pre + Format(v) + post, v, max);
  }

  lemma LineEndsAreBlank()
    ensures AllSpace("") && AllSpace("\n") && AllSpace("\r\n")
  {
  }

  /** The VERSION file ends in a line end. */
  lemma LineEndIsStripped(v: Version, max: nat)
    ensures Parse(Format(v) + "\n", max) == if InBound(v, max) then Ok(v) else Err(ComponentTooLarge)
    ensures Parse(Format(v) + "\r\n", max) == if InBound(v, max) then Ok(v) else Err(ComponentTooLarge)
  {
    hide Parse, Format, InBound, AllSpace;
    LineEndsAreBlank();
    VersionFileParses(v, "", "\n", max);
    VersionFileParses(v, "", "\r\n", max);
    assert "" + Format(v) + "\n" == Format(v) + "\n" && "" + Format(v) + "\r\n" == Format(v) + "\r\n";
  }

  lemma StripIsTrimmed(s: string)
    requires Strip(s) == s
    ensures Trimmed(s)
  {
  }

  lemma FormatTrimmed(v: Version)
    ensures Strip(Format(v)) == Format(v)
  {
    assert Format(v)[0] == Dec(v.major)[0];
    assert Format(v)[|Format(v)| - 1] == Dec(v.patch)[|Dec(v.patch)| - 1];
    StripTrimmed(Format(v));
  }

  lemma MulKeepsOrder(x: int, y: int, z: nat)
    requires x <= y
    ensures x * z <= y * z
  {
  }

  lemma ValueBounds(v: Version, max: nat)
    requires v.minor <= max && v.patch <= max
    ensures 0 <= v.major * (max + 1) * (max + 1) <= Value(v, max) < (v.major + 1) * (max + 1) * (max + 1)
  {
    var b := max + 1;
    var row := v.major * b + v.minor;
    RowBefore(v.major, v.major + 1, b);
    MulKeepsOrder(v.major * b, row, b);
    MulKeepsOrder(row + 1, (v.major + 1) * b, b);
    assert (row + 1) * b == row * b + b;
    MulKeepsOrder(0, v.major, b);
    MulKeepsOrder(0, v.major * b, b);
  }

  lemma RowBefore(r: int, s: int, b: int)
    requires r < s && 0 < b
    ensures r * b + b <= s * b
  {
    MulKeepsOrder(r + 1, s, b);
    assert (r + 1) * b == r * b + b;
  }

  /** Release order is the order of the mixed-radix values. */
  lemma OrderIsValue(v: Version, w: Version, max: nat)
    requires v.minor <= max && v.patch <= max && w.minor <= max && w.patch <= max
    ensures Before(v, w) <==> Value(v, max) < Value(w, max)
    ensures Value(v, max) == Value(w, max) ==> v == w
  {
    var b := max + 1;
    var rv, rw := v.major * b + v.minor, w.major * b + w.minor;
    if v.major < w.major { RowBefore(v.major, w.major, b); }
    if w.major < v.major { RowBefore(w.major, v.major, b); }
    if rv < rw { RowBefore(rv, rw, b); }
    if rw < rv { RowBefore(rw, rv, b); }
  }

  lemma SuccessorAddsOne(v: Version, max: nat)
    requires v.minor <= max && v.patch <= max
    ensures Value(Successor(v, max), max) == Value(v, max) + 1
    ensures Successor(v, max).minor <= max && Successor(v, max).patch <= max
    ensures InBound(v, max) ==> (InBound(Successor(v, max), max) <==> v != Version(max, max, max))
    ensures Before(v, Successor(v, max))
  {
    var b := max + 1;
    if v.patch == max && v.minor < max {
      assert (v.major * b + v.minor + 1) * b == (v.major * b + v.minor) * b + b;
    } else if v.patch == max && v.minor == max {
      assert ((v.major + 1) * b) * b == (v.major * b + max) * b + b by {
        assert (v.major + 1) * b == v.major * b + max + 1;
      }
    }
  }

  /** The step advances the value by exactly one; only the all-maximum version leaves the bound. */
  lemma NextAddsOne(text: string, v: Version, max: nat)
    requires Parse(text, max) == Ok(v)
    ensures NextVersion(text, max) == Ok(Format(Successor(v, max)))
    ensures Value(Successor(v, max), max) == Value(v, max) + 1
    ensures Before(v, Successor(v, max))
    ensures Parse(Format(Successor(v, max)), max)
            == if v == Version(max, max, max) then Err(ComponentTooLarge) else Ok(Successor(v, max))
  {
    ParseExact(text, v, max);
    SuccessorAddsOne(v, max);
    FormatTrimmed(Successor(v, max));
    ParseInvertsFormat(Format(Successor(v, max)), Successor(v, max), max);
  }

  /** After 99.99.99 the tool names a version, 100.0.0, that it does not accept. */
  lemma LastVersionLeavesBound()
    ensures var last := Version(MAX_COMPONENT, MAX_COMPONENT, MAX_COMPONENT);
      && NextVersion(Format(last), MAX_COMPONENT) == Ok(Format(Version(100, 0, 0)))
      && Parse(Format(Version(100, 0, 0)), MAX_COMPONENT) == Err(ComponentTooLarge)
  {
    var last := Version(MAX_COMPONENT, MAX_COMPONENT, MAX_COMPONENT);
    FormatTrimmed(last);
    ParseInvertsFormat(Format(last), last, MAX_COMPONENT);
    NextAddsOne(Format(last), last, MAX_COMPONENT);
  }

  /** Number of versions in bound. */
  function Cap(max: nat): int {
    (max + 1) * (max + 1) * (max + 1)
  }

  lemma BoundIsBelowCap(v: Version, max: nat)
    requires v.minor <= max && v.patch <= max
    ensures 0 <= Value(v, max)
    ensures InBound(v, max) <==> Value(v, max) < Cap(max)
  {
    var b := max + 1;
    ValueBounds(v, max);
    if v.major <= max {
      MulKeepsOrder(v.major + 1, b, b);
      MulKeepsOrder((v.major + 1) * b, b * b, b);
    } else {
      MulKeepsOrder(b, v.major, b);
      MulKeepsOrder(b * b, v.major * b, b);
    }
  }

  function Step(max: nat): string -> Result<string, VersionError> {
    (text: string) => NextVersion(text, max)
  }

  function Shown(): Version -> string {
    (v: Version) => Format(v)
  }

  function Next(max: nat): Version -> Version {
    (v: Version) => Successor(v, max)
  }

  function Bounded(max: nat): Version -> bool {
    (v: Version) => InBound(v, max)
  }

  /** The version k places after v. */
  function Later(v: Version, k: nat, max: nat): Version {
    Orbit(Next(max), v, k)
  }

  lemma {:induction false} LaterAddsK(v: Version, k: nat, max: nat)
    requires v.minor <= max && v.patch <= max
    ensures Value(Later(v, k, max), max) == Value(v, max) + k
    ensures Later(v, k, max).minor <= max && Later(v, k, max).patch <= max
    decreases k
  {
    SuccessorAddsOne(v, max);
    if k != 0 {
      LaterAddsK(Successor(v, max), k - 1, max);
    }
  }

  /** All versions stepped from are in bound exactly when the last result does not pass the cap. */
  lemma {:induction false} AllowedWithinCap(v: Version, k: nat, max: nat)
    requires v.minor <= max && v.patch <= max
    ensures Allowed(Next(max), Bounded(max), v, k) <==> k == 0 || Value(v, max) + k <= Cap(max)
    decreases k
  {
    BoundIsBelowCap(v, max);
    SuccessorAddsOne(v, max);
    if k != 0 {
      AllowedWithinCap(Successor(v, max), k - 1, max);
    }
  }

  lemma OneStep(v: Version, max: nat)
    ensures Step(max)(Shown()(v))
            == if Bounded(max)(v) then Ok(Shown()(Next(max)(v))) else Err(ComponentTooLarge)
  {
    FormatTrimmed(v);
    ParseInvertsFormat(Format(v), v, max);
  }

  /** k uses of the "next" command, each fed with the previous output, print the version k places
      ahead, whose value is k larger; they fail exactly when that passes the cap. */
  lemma StepsAddUp(v: Version, k: nat, max: nat)
    requires InBound(v, max)
    ensures Iterate(Step(max), Shown()(v), k)
            == if Value(v, max) + k <= Cap(max) then Ok(Shown()(Later(v, k, max))) else Err(ComponentTooLarge)
    ensures Value(Later(v, k, max), max) == Value(v, max) + k
  {
    forall w
      ensures Step(max)(Shown()(w))
              == if Bounded(max)(w) then Ok(Shown()(Next(max)(w))) else Err(ComponentTooLarge)
    {
      OneStep(w, max);
    }
    IterateShowsOrbit(Step(max), Shown(), Next(max), Bounded(max), ComponentTooLarge, v, k);
    AllowedWithinCap(v, k, max);
    BoundIsBelowCap(v, max);
    LaterAddsK(v, k, max);
  }

  /** From 0.0.0 the command visits every version in bound, each after exactly its value in steps. */
  lemma EveryVersionIsReached(v: Version, max: nat)
    requires InBound(v, max)
    ensures 0 <= Value(v, max)
    ensures Iterate(Step(max), Shown()(Version(0, 0, 0)), Value(v, max)) == Ok(Shown()(v))
  {
    var zero := Version(0, 0, 0);
    BoundIsBelowCap(v, max);
    ZeroValue(max);
    LaterAddsK(zero, Value(v, max), max);
    OrderIsValue(v, Later(zero, Value(v, max), max), max);
    StepsAddUp(zero, Value(v, max), max);
  }

  lemma ZeroValue(max: nat)
    ensures Value(Version(0, 0, 0), max) == 0
  {
  }
}
