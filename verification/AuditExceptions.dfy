/** The exception-list parser of tools/check_pnpm_audit_exceptions.py, and a printer it undoes. */
module AuditExceptions {
  import opened Common
  import opened Text

  type Record = map<string, string>

  /** The ValueError of unpacking a line without a colon. */
  datatype ParseError = NoColon(line: string)

  // ---------------------------------------------------------------- text lines

  predicate IsBreak(c: char) {
    c == '\n' || c == '\r'
  }

  ghost predicate OneLine(s: string) {
    forall i :: 0 <= i < |s| ==> !IsBreak(s[i])
  }

  function LineEnd(text: string): (n: nat)
    ensures n <= |text|
  {
    if text == "" || IsBreak(text[0]) then 0 else 1 + LineEnd(text[1..])
  }

  /** The lines of a text file read with universal newlines. */
  function Lines(text: string): seq<string> {
    if text == "" then []
    else
      var n := LineEnd(text);
      if n == |text| then [text]
      else
        var width := if text[n] == '\r' && n + 1 < |text| && text[n + 1] == '\n' then 2 else 1;
        [text[..n]] + Lines(text[n + width..])
  }

  function JoinLines(lines: seq<string>): string {
    if lines == [] then "" else lines[0] + "\n" + JoinLines(lines[1..])
  }

  lemma {:induction false} LineEndOf(line: string, rest: string)
    requires OneLine(line)
    ensures LineEnd(line + "\n" + rest) == |line|
  {
    if line == "" {
      assert (line + "\n" + rest)[0] == '\n';
    } else {
      assert (line + "\n" + rest)[1..] == line[1..] + "\n" + rest;
      LineEndOf(line[1..], rest);
    }
  }

  /** A line ends at a line feed, a carriage return and line feed, or a carriage return; the last needs none. */
  lemma LinesExactly(line: string, rest: string)
    requires OneLine(line)
    ensures Lines("") == [] && (line != "" ==> Lines(line) == [line])
    ensures Lines(line + "\n" + rest) == [line] + Lines(rest)
    ensures Lines(line + "\r\n" + rest) == [line] + Lines(rest)
    ensures rest == "" || rest[0] != '\n' ==> Lines(line + "\r" + rest) == [line] + Lines(rest)
  {
    hide OneLine;
    LineEndAt(line, "");
    assert line + "" == line;
    FirstLine(line, rest);
    EndsInTwo(line, rest);
    if rest == "" || rest[0] != '\n' {
      EndsInReturn(line, rest);
    }
  }

  lemma EndsInTwo(line: string, rest: string)
    requires OneLine(line)
    ensures Lines(line + "\r\n" + rest) == [line] + Lines(rest)
  {
    var text := line + "\r\n" + rest;
    assert text == line + ("\r\n" + rest);
    LineEndAt(line, "\r\n" + rest);
    assert text[|line|] == '\r' && text[|line| + 1] == '\n' && text[..|line|] == line && text[|line| + 2..] == rest;
  }

  lemma EndsInReturn(line: string, rest: string)
    requires OneLine(line) && (rest == "" || rest[0] != '\n')
    ensures Lines(line + "\r" + rest) == [line] + Lines(rest)
  {
    var text := line + "\r" + rest;
    assert text == line + ("\r" + rest);
    LineEndAt(line, "\r" + rest);
    assert text[|line|] == '\r' && text[..|line|] == line && text[|line| + 1..] == rest;
    assert rest != "" ==> text[|line| + 1] == rest[0];
  }

  lemma {:induction false} LineEndAt(line: string, tail: string)
    requires OneLine(line) && (tail == "" || IsBreak(tail[0]))
    ensures LineEnd(line + tail) == |line|
  {
    if line == "" {
      assert line + tail == tail;
    } else {
      assert (line + tail)[1..] == line[1..] + tail;
      LineEndAt(line[1..], tail);
    }
  }

  lemma CutLine(line: string, rest: string, text: string)
    requires text == line + "\n" + rest
    ensures |line| < |text| && text[|line|] == '\n' && text[..|line|] == line && text[|line| + 1..] == rest
  {
  }

  lemma FirstLine(line: string, rest: string)
    requires OneLine(line)
    ensures Lines(line + "\n" + rest) == [line] + Lines(rest)
  {
    LineEndOf(line, rest);
    CutLine(line, rest, line + "\n" + rest);
  }

  lemma {:induction false} LinesOfJoined(lines: seq<string>)
    requires forall i :: 0 <= i < |lines| ==> OneLine(lines[i])
    ensures Lines(JoinLines(lines)) == lines
  {
    if lines != [] {
      FirstLine(lines[0], JoinLines(lines[1..]));
      LinesOfJoined(lines[1..]);
      HeadAndTail(lines);
    }
  }

  lemma HeadAndTail<T>(s: seq<T>)
    requires s != []
    ensures [s[0]] + s[1..] == s
  {
  }

  // ---------------------------------------------------------------- the parser

  function FirstColon(s: string): (n: nat)
    ensures n <= |s|
    ensures n < |s| ==> s[n] == ':'
    ensures ':' !in s[..n]
  {
    if s == "" || s[0] == ':' then 0 else 1 + FirstColon(s[1..])
  }

  predicate Quoted(v: string, mark: char) {
    v != "" && v[0] == mark && v[|v| - 1] == mark
  }

  /** Cuts at the first colon and drops one pair of matching quotes around the value. */
  function SplitKv(line: string): Result<(string, string), ParseError> {
    var n := FirstColon(line);
    if n == |line| then Err(NoColon(line))
    else
      var value := Strip(line[n + 1..]);
      var bare := if Quoted(value, '"') || Quoted(value, '\'')
                  then (if |value| <= 2 then "" else value[1..|value| - 1])
                  else value;
      Ok((Strip(line[..n]), bare))
  }

  /** The exceptions read so far, and the one being read. */
  datatype State = State(exceptions: seq<Record>, current: Option<Record>)

  function Close(s: State): seq<Record> {
    if s.current.Some? && s.current.value != map[] then s.exceptions + [s.current.value] else s.exceptions
  }

  function ReadLine(s: State, raw: string): Result<State, ParseError> {
    var line := Strip(raw);
    if line == "" || line[0] == '#' then Ok(s)
    else if "version:" <= line || "exceptions:" <= line then Ok(s)
    else if "- " <= line then
      var rest := Strip(line[2..]);
      if rest == "" then Ok(State(Close(s), Some(map[])))
      else match SplitKv(rest)
           case Err(e) => Err(e)
           case Ok((k, v)) => Ok(State(Close(s), Some(map[k := v])))
    else if s.current.Some? && ':' in line then
      match SplitKv(line)
      case Err(e) => Err(e)
      case Ok((k, v)) => Ok(s.(current := Some(s.current.value[k := v])))
    else Ok(s)
  }

  function ReadLines(s: State, lines: seq<string>): Result<State, ParseError>
    decreases |lines|
  {
    if lines == [] then Ok(s)
    else match ReadLine(s, lines[0])
         case Err(e) => Err(e)
         case Ok(t) => ReadLines(t, lines[1..])
  }

  function Parsed(lines: seq<string>): Result<seq<Record>, ParseError> {
    match ReadLines(State([], None), lines)
    case Err(e) => Err(e)
    case Ok(s) => Ok(Close(s))
  }

  method ParseExceptions(text: string) returns (r: Result<seq<Record>, ParseError>)
    ensures r == Parsed(Lines(text))
  {
    var lines := Lines(text);
    var exceptions: seq<Record>, current: Option<Record> := [], None;
    var i := 0;
    while i < |lines|
      invariant 0 <= i <= |lines|
      invariant ReadLines(State([], None), lines) == ReadLines(State(exceptions, current), lines[i..])
    {
      ghost var before := State(exceptions, current);
      ghost var rest := lines[i..];
      assert rest[0] == lines[i] && rest[1..] == lines[i + 1..];
      var line := Strip(lines[i]);
      i := i + 1;
      if line == "" || line[0] == '#' || "version:" <= line || "exceptions:" <= line {
        continue;
      }
      if "- " <= line {
        if current.Some? && current.value != map[] {
          exceptions := exceptions + [current.value];
        }
        current := Some(map[]);
        line := Strip(line[2..]);
        if line != "" {
          match SplitKv(line)
          case Err(e) => return Err(e);
          case Ok((k, v)) => current := Some(current.value[k := v]);
        }
        continue;
      }
      if current.Some? && ':' in line {
        match SplitKv(line)
        case Err(e) => return Err(e);
        case Ok((k, v)) => current := Some(current.value[k := v]);
      }
    }
    if current.Some? && current.value != map[] {
      exceptions := exceptions + [current.value];
    }
    return Ok(exceptions);
  }

  /** An item line that carries no colon. */
  ghost predicate BareItem(raw: string) {
    var line := Strip(raw);
    "- " <= line && Strip(line[2..]) != "" && ':' !in Strip(line[2..])
  }

  lemma ColonFound(s: string)
    ensures FirstColon(s) < |s| <==> ':' in s
  {
    assert FirstColon(s) == |s| ==> s[..FirstColon(s)] == s;
  }

  lemma LineFails(s: State, raw: string)
    ensures ReadLine(s, raw).Err? <==> BareItem(raw)
  {
    var line := Strip(raw);
    ColonFound(line);
    if "- " <= line {
      assert line[0] == '-';
      ColonFound(Strip(line[2..]));
    }
  }

  /** The parser gives up exactly on an item line without a colon; every other text is read. */
  lemma {:induction false} ParseFailsExactly(s: State, lines: seq<string>)
    ensures ReadLines(s, lines).Err? <==> exists i :: 0 <= i < |lines| && BareItem(lines[i])
    decreases |lines|
  {
    if lines != [] {
      LineFails(s, lines[0]);
      if ReadLine(s, lines[0]).Ok? {
        ParseFailsExactly(ReadLine(s, lines[0]).value, lines[1..]);
        assert forall i :: 1 <= i < |lines| ==> lines[i] == lines[1..][i - 1];
      }
    }
  }

  // ---------------------------------------------------------------- the printer

  /** How a value is written: as it is, or between quotes. */
  datatype Style = Bare | Double | Single

  datatype Pair = Pair(key: string, value: string, style: Style)

  function Written(p: Pair): string {
    match p.style
    case Bare => p.value
    case Double => "\"" + p.value + "\""
    case Single => "'" + p.value + "'"
  }

  function Field(p: Pair): string {
    p.key + ":" + if Written(p) == "" then "" else " " + Written(p)
  }

  /** A bare value has no blanks around it that would be lost, and no quotes. */
  ghost predicate CanStand(p: Pair) {
    p.style.Bare? ==> Trimmed(p.value) && !Quoted(p.value, '"') && !Quoted(p.value, '\'')
  }

  function Indented(p: Pair): string {
    "    " + Field(p)
  }

  function PrintEntry(entry: seq<Pair>): seq<string> {
    if entry == [] then [] else ["  - " + Field(entry[0])] + Map(entry[1..], Indented)
  }

  function PrintEntries(entries: seq<seq<Pair>>): seq<string> {
    if entries == [] then [] else PrintEntry(entries[0]) + PrintEntries(entries[1..])
  }

  function PrintFile(entries: seq<seq<Pair>>): seq<string> {
    ["version: 1", "exceptions:"] + PrintEntries(entries)
  }

  /** The dictionary of a list of pairs; a later pair overrides an earlier one. */
  function ToRecord(entry: seq<Pair>): Record {
    if entry == [] then map[] else var p := entry[|entry| - 1]; ToRecord(entry[..|entry| - 1])[p.key := p.value]
  }

  ghost predicate CleanKey(k: string) {
    Trimmed(k) && ':' !in k
  }

  /** A key that may stand at the start of a continuation line. */
  ghost predicate PlainKey(k: string) {
    CleanKey(k) && k != "version" && k != "exceptions" && !("#" <= k) && !("- " <= k)
  }

  ghost predicate Printable(entry: seq<Pair>) {
    && entry != [] && CleanKey(entry[0].key)
    && (forall i :: 1 <= i < |entry| ==> PlainKey(entry[i].key))
    && (forall i :: 0 <= i < |entry| ==> CanStand(entry[i]))
  }

  // ---------------------------------------------------------------- parsing undoes printing

  lemma {:induction false} FirstColonOf(k: string, rest: string)
    requires ':' !in k
    ensures FirstColon(k + ":" + rest) == |k|
  {
    if k == "" {
      assert (k + ":" + rest)[0] == ':';
    } else {
      assert (k + ":" + rest)[1..] == k[1..] + ":" + rest;
      FirstColonOf(k[1..], rest);
    }
  }

  lemma WrittenTrimmed(p: Pair)
    requires CanStand(p)
    ensures Trimmed(Written(p))
  {
    var w := Written(p);
    match p.style
    case Bare =>
    case Double => assert w[0] == '"' && w[|w| - 1] == '"';
    case Single => assert w[0] == '\'' && w[|w| - 1] == '\'';
  }

  /** One pair of quotes goes, and a bare value stays. */
  function Unquoted(v: string): string {
    if Quoted(v, '"') || Quoted(v, '\'') then (if |v| <= 2 then "" else v[1..|v| - 1]) else v
  }

  lemma WrittenUnquotes(p: Pair)
    requires CanStand(p)
    ensures Unquoted(Written(p)) == p.value
  {
    var w := Written(p);
    match p.style
    case Bare =>
    case Double => assert w[0] == '"' && w[|w| - 1] == '"' && w[1..|w| - 1] == p.value;
    case Single => assert w[0] == '\'' && w[|w| - 1] == '\'' && w[1..|w| - 1] == p.value;
  }

  lemma FieldCut(p: Pair)
    requires ':' !in p.key && CanStand(p)
    ensures FirstColon(Field(p)) == |p.key| < |Field(p)| && Field(p)[..|p.key|] == p.key
    ensures Strip(Field(p)[|p.key| + 1..]) == Written(p)
  {
    var rest := if Written(p) == "" then "" else " " + Written(p);
    assert Field(p) == p.key + ":" + rest;
    FirstColonOf(p.key, rest);
    assert Field(p)[|p.key| + 1..] == rest;
    WrittenTrimmed(p);
    StripPadded(if Written(p) == "" then "" else " ", Written(p), "");
    assert (if Written(p) == "" then "" else " ") + Written(p) + "" == rest;
  }

  /** A field splits into its key and value, whatever colons, quotes and blanks the value has: between quotes of either
      kind, or bare if no quotes surround it. */
  lemma SplitField(p: Pair)
    requires CleanKey(p.key) && CanStand(p)
    ensures SplitKv(Field(p)) == Ok((p.key, p.value))
  {
    FieldCut(p);
    StripTrimmed(p.key);
    WrittenUnquotes(p);
  }

  lemma FieldTrimmed(p: Pair)
    requires CleanKey(p.key) && CanStand(p)
    ensures Trimmed(Field(p)) && Field(p) != ""
  {
    WrittenTrimmed(p);
    var f, w := Field(p), Written(p);
    if w == "" {
      assert f[|f| - 1] == ':';
    } else {
      assert f[|f| - 1] == w[|w| - 1];
    }
    if p.key == "" {
      assert f[0] == ':';
    } else {
      assert f[0] == p.key[0];
    }
  }

  lemma FirstLineRead(s: State, p: Pair)
    requires CleanKey(p.key) && CanStand(p)
    ensures ReadLine(s, "  - " + Field(p)) == Ok(State(Close(s), Some(map[p.key := p.value])))
  {
    hide Field, CanStand, CleanKey, SplitKv, Strip;
    FieldTrimmed(p);
    var line := "- " + Field(p);
    assert line[|line| - 1] == Field(p)[|Field(p)| - 1];
    StripPadded("  ", line, "");
    assert "  " + line + "" == "  - " + Field(p);
    assert line[0] == '-';
    assert line[2..] == Field(p);
    StripTrimmed(Field(p));
    SplitField(p);
  }

  /** Only the key `word` makes a field start with `word:`. */
  lemma FieldStart(p: Pair, word: string)
    requires ':' !in p.key && ':' !in word && CanStand(p)
    ensures word + ":" <= Field(p) ==> p.key == word
  {
    if word + ":" <= Field(p) {
      var f := Field(p);
      FieldCut(p);
      assert f == word + ":" + f[|word| + 1..];
      FirstColonOf(word, f[|word| + 1..]);
      assert f[..|word|] == word && f[..|p.key|] == p.key;
    }
  }

  lemma PlainFieldStart(p: Pair)
    requires PlainKey(p.key) && CanStand(p)
    ensures Field(p)[0] != '#' && !("- " <= Field(p))
  {
    if p.key == "" {
      assert Field(p)[0] == ':';
    } else {
      assert Field(p)[0] == p.key[0];
      assert p.key[0] == '#' ==> "#" <= p.key;
      if |p.key| >= 2 {
        assert Field(p)[1] == p.key[1];
        assert p.key[0] == '-' && p.key[1] == ' ' ==> "- " <= p.key;
      } else {
        assert Field(p)[1] == ':';
      }
    }
  }

  lemma IndentedStrips(p: Pair)
    requires CleanKey(p.key) && CanStand(p)
    ensures Strip(Indented(p)) == Field(p) && Field(p) != ""
  {
    FieldTrimmed(p);
    StripPadded("    ", Field(p), "");
    assert "    " + Field(p) + "" == Indented(p);
  }

  lemma PlainFieldIsData(p: Pair)
    requires PlainKey(p.key) && CanStand(p)
    ensures !("version:" <= Field(p)) && !("exceptions:" <= Field(p)) && ':' in Field(p)
  {
    FieldStart(p, "version");
    FieldStart(p, "exceptions");
    FieldCut(p);
    assert "version" + ":" == "version:" && "exceptions" + ":" == "exceptions:";
    assert Field(p)[|p.key|] == ':';
  }

  lemma NextLineRead(s: State, p: Pair)
    requires PlainKey(p.key) && CanStand(p) && s.current.Some?
    ensures ReadLine(s, Indented(p)) == Ok(s.(current := Some(s.current.value[p.key := p.value])))
  {
    IndentedStrips(p);
    PlainFieldIsData(p);
    PlainFieldStart(p);
    SplitField(p);
  }

  lemma {:induction false} ReadAppend(s: State, xs: seq<string>, ys: seq<string>)
    requires ReadLines(s, xs).Ok?
    ensures ReadLines(s, xs + ys) == ReadLines(ReadLines(s, xs).value, ys)
    decreases |xs|
  {
    if xs == [] {
      assert xs + ys == ys;
    } else {
      assert (xs + ys)[1..] == xs[1..] + ys;
      ReadAppend(ReadLine(s, xs[0]).value, xs[1..], ys);
    }
  }

  lemma {:induction false} RestRead(s: State, pairs: seq<Pair>)
    requires forall i :: 0 <= i < |pairs| ==> PlainKey(pairs[i].key) && CanStand(pairs[i])
    requires s.current.Some?
    ensures ReadLines(s, Map(pairs, Indented)) == Ok(s.(current := Some(Extended(s.current.value, pairs))))
    decreases |pairs|
  {
    if pairs == [] {
      assert Map(pairs, Indented) == [];
    } else {
      var t := s.(current := Some(s.current.value[pairs[0].key := pairs[0].value]));
      NextLineRead(s, pairs[0]);
      assert Map(pairs, Indented)[0] == Indented(pairs[0]);
      assert Map(pairs, Indented)[1..] == Map(pairs[1..], Indented);
      RestRead(t, pairs[1..]);
    }
  }

  function Extended(r: Record, pairs: seq<Pair>): Record
    decreases |pairs|
  {
    if pairs == [] then r else Extended(r[pairs[0].key := pairs[0].value], pairs[1..])
  }

  lemma {:induction false} ExtendedLast(r: Record, pairs: seq<Pair>)
    requires pairs != []
    ensures var p := pairs[|pairs| - 1]; Extended(r, pairs) == Extended(r, pairs[..|pairs| - 1])[p.key := p.value]
    decreases |pairs|
  {
    if |pairs| > 1 {
      ExtendedLast(r[pairs[0].key := pairs[0].value], pairs[1..]);
      assert pairs[1..][..|pairs| - 2] == pairs[..|pairs| - 1][1..];
    }
  }

  lemma {:induction false} ExtendedIsRecord(entry: seq<Pair>)
    ensures Extended(map[], entry) == ToRecord(entry)
    decreases |entry|
  {
    if entry != [] {
      ExtendedLast(map[], entry);
      ExtendedIsRecord(entry[..|entry| - 1]);
    }
  }

  lemma EntryRead(s: State, entry: seq<Pair>)
    requires Printable(entry)
    ensures ReadLines(s, PrintEntry(entry)) == Ok(State(Close(s), Some(ToRecord(entry))))
    ensures ToRecord(entry) != map[]
  {
    var t := State(Close(s), Some(map[entry[0].key := entry[0].value]));
    FirstLineRead(s, entry[0]);
    RestRead(t, entry[1..]);
    assert PrintEntry(entry)[1..] == Map(entry[1..], Indented);
    assert map[][entry[0].key := entry[0].value] == map[entry[0].key := entry[0].value];
    assert Extended(map[], entry) == Extended(map[entry[0].key := entry[0].value], entry[1..]);
    ExtendedIsRecord(entry);
    assert entry[|entry| - 1].key in ToRecord(entry);
  }

  /** Reading the lines from state s finds just these records after the ones s already holds. */
  ghost predicate Finds(s: State, lines: seq<string>, records: seq<Record>) {
    ReadLines(s, lines).Ok? && Close(ReadLines(s, lines).value) == Close(s) + records
  }

  lemma FindsMore(s: State, t: State, xs: seq<string>, ys: seq<string>, r: Record, records: seq<Record>)
    requires ReadLines(s, xs) == Ok(t) && Close(t) == Close(s) + [r] && Finds(t, ys, records)
    ensures Finds(s, xs + ys, [r] + records)
  {
    ReadAppend(s, xs, ys);
    AppendAssociates(Close(s), [r], records);
  }

  lemma EntryFound(s: State, t: State, e: seq<Pair>, lines: seq<string>, records: seq<Record>)
    requires Printable(e) && t == State(Close(s), Some(ToRecord(e))) && Finds(t, lines, records)
    ensures Finds(s, PrintEntry(e) + lines, [ToRecord(e)] + records)
  {
    EntryRead(s, e);
    FindsMore(s, t, PrintEntry(e), lines, ToRecord(e), records);
  }

  lemma {:induction false} EntriesRead(s: State, entries: seq<seq<Pair>>)
    requires forall e :: e in entries ==> Printable(e)
    ensures Finds(s, PrintEntries(entries), Map(entries, ToRecord))
    decreases |entries|
  {
    if entries == [] {
      assert Map(entries, ToRecord) == [];
    } else {
      var e, rest := entries[0], entries[1..];
      assert e in entries;
      var t := State(Close(s), Some(ToRecord(e)));
      assert forall d :: d in rest ==> d in entries;
      EntriesRead(t, rest);
      EntryFound(s, t, e, PrintEntries(rest), Map(rest, ToRecord));
      MapSplit(entries, ToRecord);
    }
  }

  /** Parsing a printed file gives back the records, for all values. */
  lemma ParseUndoesPrint(entries: seq<seq<Pair>>)
    requires forall e :: e in entries ==> Printable(e)
    ensures Parsed(PrintFile(entries)) == Ok(Map(entries, ToRecord))
  {
    var s := State([], None);
    HeaderRead(s);
    ReadAppend(s, ["version: 1", "exceptions:"], PrintEntries(entries));
    EntriesRead(s, entries);
    assert [] + Map(entries, ToRecord) == Map(entries, ToRecord);
  }

  lemma HeaderRead(s: State)
    ensures ReadLines(s, ["version: 1", "exceptions:"]) == Ok(s)
  {
    StripTrimmed("version: 1");
    StripTrimmed("exceptions:");
    assert ["version: 1", "exceptions:"][1..] == ["exceptions:"];
    assert "version:" <= "version: 1";
  }

  ghost predicate OneLinePairs(entry: seq<Pair>) {
    forall i :: 0 <= i < |entry| ==> OneLine(entry[i].key) && OneLine(entry[i].value)
  }

  lemma PairOneLine(p: Pair)
    requires OneLine(p.key) && OneLine(p.value)
    ensures OneLine("  - " + Field(p)) && OneLine(Indented(p))
  {
    hide Field;
    FieldOneLine(p);
  }

  lemma FieldOneLine(p: Pair)
    requires OneLine(p.key) && OneLine(p.value)
    ensures OneLine(Field(p))
  {
    hide Written;
    WrittenOneLine(p);
  }

  lemma WrittenOneLine(p: Pair)
    requires OneLine(p.value)
    ensures OneLine(Written(p))
  {
  }

  lemma EntryOneLine(e: seq<Pair>)
    requires OneLinePairs(e)
    ensures forall i :: 0 <= i < |PrintEntry(e)| ==> OneLine(PrintEntry(e)[i])
  {
    forall i | 0 <= i < |PrintEntry(e)|
      ensures OneLine(PrintEntry(e)[i])
    {
      PairOneLine(e[i]);
      assert i > 0 ==> PrintEntry(e)[i] == Map(e[1..], Indented)[i - 1];
    }
  }

  lemma {:induction false} PrintedOneLine(entries: seq<seq<Pair>>)
    requires forall e :: e in entries ==> OneLinePairs(e)
    ensures forall i :: 0 <= i < |PrintEntries(entries)| ==> OneLine(PrintEntries(entries)[i])
    decreases |entries|
  {
    if entries != [] {
      assert entries[0] in entries;
      assert forall d :: d in entries[1..] ==> d in entries;
      EntryOneLine(entries[0]);
      PrintedOneLine(entries[1..]);
    }
  }

  lemma FileOneLine(entries: seq<seq<Pair>>)
    requires forall e :: e in entries ==> OneLinePairs(e)
    ensures forall i :: 0 <= i < |PrintFile(entries)| ==> OneLine(PrintFile(entries)[i])
  {
    hide PrintEntries, OneLinePairs;
    PrintedOneLine(entries);
  }

  /** The same for the file's text, when keys and values hold no line breaks. */
  lemma ParseTextUndoesPrint(entries: seq<seq<Pair>>)
    requires forall e :: e in entries ==> Printable(e) && OneLinePairs(e)
    ensures Parsed(Lines(JoinLines(PrintFile(entries)))) == Ok(Map(entries, ToRecord))
  {
    hide Parsed, Lines, JoinLines, Printable, PrintEntries, ToRecord, OneLine, OneLinePairs;
    FileOneLine(entries);
    LinesOfJoined(PrintFile(entries));
    ParseUndoesPrint(entries);
  }

  // ---------------------------------------------------------------- lines that say nothing

  /** Blank lines, comments and the two headers. */
  predicate SaysNothing(raw: string) {
    var line := Strip(raw);
    line == "" || "#" <= line || "version:" <= line || "exceptions:" <= line
  }

  function SaysSomething(): string -> bool {
    (raw: string) => !SaysNothing(raw)
  }

  lemma {:induction false} NothingIsRead(s: State, lines: seq<string>)
    ensures ReadLines(s, lines) == ReadLines(s, Filter(lines, SaysSomething()))
    decreases |lines|
  {
    if lines != [] {
      var rest := Filter(lines[1..], SaysSomething());
      if SaysNothing(lines[0]) {
        assert ReadLine(s, lines[0]) == Ok(s);
        NothingIsRead(s, lines[1..]);
        assert Filter(lines, SaysSomething()) == [] + rest == rest;
      } else {
        assert Filter(lines, SaysSomething()) == [lines[0]] + rest;
        assert ([lines[0]] + rest)[1..] == rest;
        if ReadLine(s, lines[0]).Ok? {
          NothingIsRead(ReadLine(s, lines[0]).value, lines[1..]);
        }
      }
    }
  }

  /** Comments and blank lines change nothing, wherever they stand: a text that is printed records but for such lines
      parses to the records. */
  lemma CommentsAreSkipped(lines: seq<string>, entries: seq<seq<Pair>>)
    requires forall e :: e in entries ==> Printable(e)
    requires Filter(lines, SaysSomething()) == Filter(PrintFile(entries), SaysSomething())
    ensures Parsed(lines) == Ok(Map(entries, ToRecord))
  {
    var s := State([], None);
    NothingIsRead(s, lines);
    NothingIsRead(s, PrintFile(entries));
    ParseUndoesPrint(entries);
  }

  /** A line that is no item counts only if it belongs to a record and has a colon. */
  lemma OthersAreSkipped(s: State, raw: string)
    requires !("- " <= Strip(raw)) && (SaysNothing(raw) || s.current.None? || ':' !in Strip(raw))
    ensures ReadLine(s, raw) == Ok(s)
  {
  }

  /** How far a line is indented makes no difference. */
  lemma IndentationIsSkipped(s: State, pre: string, line: string, post: string)
    requires AllSpace(pre) && AllSpace(post) && Trimmed(line)
    ensures ReadLine(s, pre + line + post) == ReadLine(s, line)
  {
    StripPadded(pre, line, post);
    StripTrimmed(line);
  }
}
