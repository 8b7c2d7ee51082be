/** Decoding a database row into an account: scanValues makes a holder per column, the driver fills the holders,
    assignValues stores them (backend/ent/account.go). */
module RowCodec {
  import opened Common
  import opened AccountSchema

  // ---------------------------------------------------------------- values and holders

  /** A field value of the entity. */
  datatype Value =
    | IntVal(i: int)
    | RealVal(x: real)
    | TextVal(s: string)
    | BoolVal(b: bool)
    | TimeVal(t: int)
    | JsonVal(entries: map<string, string>)

  datatype Field = Nil | Is(v: Value)

  datatype HolderKind = IntKind | RealKind | TextKind | BoolKind | TimeKind | BytesKind | UnknownKind

  /** What the driver scans into. */
  datatype Holder =
    | NullInt(valid: bool, i: int)
    | NullReal(valid: bool, x: real)
    | NullText(valid: bool, s: string)
    | NullBool(valid: bool, b: bool)
    | NullTime(valid: bool, t: int)
    | Bytes(bytes: string)
    | Unknown(cell: Cell)

  /** The time that a zero time.Time denotes. */
  const ZERO_TIME: int := 0

  function KindOf(h: Holder): HolderKind {
    match h
    case NullInt(_, _) => IntKind
    case NullReal(_, _) => RealKind
    case NullText(_, _) => TextKind
    case NullBool(_, _) => BoolKind
    case NullTime(_, _) => TimeKind
    case Bytes(_) => BytesKind
    case Unknown(_) => UnknownKind
  }

  /** A new, empty holder. */
  function Empty(k: HolderKind): Holder {
    match k
    case IntKind => NullInt(false, 0)
    case RealKind => NullReal(false, 0.0)
    case TextKind => NullText(false, "")
    case BoolKind => NullBool(false, false)
    case TimeKind => NullTime(false, ZERO_TIME)
    case BytesKind => Bytes("")
    case UnknownKind => Unknown(Null)
  }

  /** The driver fills a holder, or fails on a cell of another type. */
  function Fill(k: HolderKind, cell: Cell): Option<Holder> {
    match (k, cell)
    case (UnknownKind, _) => Some(Unknown(cell))
    case (_, Null) => Some(Empty(k))
    case (IntKind, IntCell(i)) => Some(NullInt(true, i))
    case (RealKind, RealCell(x)) => Some(NullReal(true, x))
    case (TextKind, TextCell(s)) => Some(NullText(true, s))
    case (BoolKind, BoolCell(b)) => Some(NullBool(true, b))
    case (TimeKind, TimeCell(t)) => Some(NullTime(true, t))
    case (BytesKind, BytesCell(b)) => Some(Bytes(b))
    case (_, _) => None
  }

  // ---------------------------------------------------------------- the two switches

  /** The switch of scanValues. */
  function ScanKind(c: Column): HolderKind {
    match c
    case Credentials | Extra => BytesKind
    case AutoPauseOnExpired | Schedulable => BoolKind
    case RateMultiplier => RealKind
    case ID | ProxyID | ProxyFallbackOriginID | Concurrency | LoadFactor | Priority | ParentAccountID => IntKind
    case Name | Notes | Platform | Type | Status | ErrorMessage | TempUnschedulableReason | SessionWindowStatus
       | QuotaDimension => TextKind
    case CreatedAt | UpdatedAt | DeletedAt | LastUsedAt | ExpiresAt | RateLimitedAt | RateLimitResetAt | OverloadUntil
       | TempUnschedulableUntil | SessionWindowStart | SessionWindowEnd => TimeKind
    case Other(_) => UnknownKind
  }

  /** How a case of assignValues stores its holder: the id always, a plain field or a pointer when valid, a JSON
      field when there are bytes; anything else among the selected values. */
  datatype Slot = Key | Plain(k: HolderKind) | Pointer(k: HolderKind) | Json | Selected

  /** The switch of assignValues, in its order. */
  function SlotOf(c: Column): Slot {
    match c
    case ID => Key
    case CreatedAt => Plain(TimeKind)
    case UpdatedAt => Plain(TimeKind)
    case DeletedAt => Pointer(TimeKind)
    case Name => Plain(TextKind)
    case Notes => Pointer(TextKind)
    case Platform => Plain(TextKind)
    case Type => Plain(TextKind)
    case Credentials => Json
    case Extra => Json
    case ProxyID => Pointer(IntKind)
    case ProxyFallbackOriginID => Pointer(IntKind)
    case Concurrency => Plain(IntKind)
    case LoadFactor => Pointer(IntKind)
    case Priority => Plain(IntKind)
    case RateMultiplier => Plain(RealKind)
    case Status => Plain(TextKind)
    case ErrorMessage => Pointer(TextKind)
    case LastUsedAt => Pointer(TimeKind)
    case ExpiresAt => Pointer(TimeKind)
    case AutoPauseOnExpired => Plain(BoolKind)
    case Schedulable => Plain(BoolKind)
    case RateLimitedAt => Pointer(TimeKind)
    case RateLimitResetAt => Pointer(TimeKind)
    case OverloadUntil => Pointer(TimeKind)
    case TempUnschedulableUntil => Pointer(TimeKind)
    case TempUnschedulableReason => Pointer(TextKind)
    case SessionWindowStart => Pointer(TimeKind)
    case SessionWindowEnd => Pointer(TimeKind)
    case SessionWindowStatus => Pointer(TextKind)
    case ParentAccountID => Pointer(IntKind)
    case QuotaDimension => Plain(TextKind)
    case Other(_) => Selected
  }

  /** The holder type that a case of assignValues asserts. */
  function Wanted(slot: Slot): HolderKind {
    match slot
    case Key => IntKind
    case Plain(k) => k
    case Pointer(k) => k
    case Json => BytesKind
    case Selected => UnknownKind
  }

  /** The two switches agree on every column. */
  lemma SwitchesAgree(c: Column)
    ensures Wanted(SlotOf(c)) == ScanKind(c)
    ensures SlotOf(c) == Selected <==> c.Other?
  {
  }

  // ---------------------------------------------------------------- storing one holder

  /** A JSON document as far as a field of type map is concerned. */
  datatype Document = NullDocument | Object(entries: map<string, string>)

  type Parser = string -> Option<Document>

  datatype AssignError = WrongCount | WrongType(c: Column) | BadJson(c: Column)

  function ZeroOf(k: HolderKind): Field {
    match k
    case IntKind => Is(IntVal(0))
    case RealKind => Is(RealVal(0.0))
    case TextKind => Is(TextVal(""))
    case BoolKind => Is(BoolVal(false))
    case TimeKind => Is(TimeVal(ZERO_TIME))
    case BytesKind => Nil
    case UnknownKind => Nil
  }

  /** The zero value of a field is what an empty holder holds; a JSON field is nil. */
  lemma ZeroIsEmpty(k: HolderKind)
    ensures k != BytesKind && k != UnknownKind ==> ZeroOf(k) == Is(Payload(Empty(k)))
    ensures ZeroOf(IntKind) == Is(IntVal(0)) && ZeroOf(RealKind) == Is(RealVal(0.0))
    ensures ZeroOf(TextKind) == Is(TextVal(""))
    ensures ZeroOf(BoolKind) == Is(BoolVal(false)) && ZeroOf(TimeKind) == Is(TimeVal(ZERO_TIME))
    ensures ZeroOf(BytesKind) == Nil && ZeroOf(UnknownKind) == Nil
  {
  }

  /** The field of a new entity. */
  function Zero(c: Column): Field {
    match SlotOf(c)
    case Key => Is(IntVal(0))
    case Plain(k) => ZeroOf(k)
    case Pointer(_) => Nil
    case Json => Nil
    case Selected => Nil
  }

  function Payload(h: Holder): Value
    requires !h.Bytes? && !h.Unknown?
  {
    match h
    case NullInt(_, i) => IntVal(i)
    case NullReal(_, x) => RealVal(x)
    case NullText(_, s) => TextVal(s)
    case NullBool(_, b) => BoolVal(b)
    case NullTime(_, t) => TimeVal(t)
  }

  /** Unmarshalling into a map that is already there adds to it; null makes it nil. */
  function Merge(before: Field, d: Document): Field {
    match d
    case NullDocument => Nil
    case Object(entries) =>
      Is(JsonVal((if before.Is? && before.v.JsonVal? then before.v.entries else map[]) + entries))
  }

  function Put(c: Column, before: Field, h: Holder, parse: Parser): Result<Field, AssignError>
    requires !c.Other?
  {
    if KindOf(h) != Wanted(SlotOf(c)) then Err(WrongType(c))
    else
      match h
      case Bytes(bytes) =>
        if bytes == "" then Ok(before)
        else (match parse(bytes)
              case None => Err(BadJson(c))
              case Some(d) => Ok(Merge(before, d)))
      case Unknown(_) => Ok(before)
      case _ => if h.valid || c == ID then Ok(Is(Payload(h))) else Ok(before)
  }

  // ---------------------------------------------------------------- whole rows

  datatype State = State(fields: map<Column, Field>, selected: map<string, Holder>)

  datatype Outcome = Outcome(st: State, err: Option<AssignError>)

  ghost predicate Complete(fields: map<Column, Field>) {
    forall c: Column :: !c.Other? ==> c in fields
  }

  function Store(st: State, c: Column, h: Holder, parse: Parser): Result<State, AssignError>
    requires !c.Other? ==> c in st.fields
  {
    match c
    case Other(name) => Ok(st.(selected := st.selected[name := h]))
    case _ =>
      match Put(c, st.fields[c], h, parse)
      case Err(e) => Err(e)
      case Ok(f) => Ok(st.(fields := st.fields[c := f]))
  }

  /** Storing the holders in turn, until one cannot be stored. */
  ghost function Run(st: State, columns: seq<Column>, values: seq<Holder>, parse: Parser): (r: Outcome)
    requires Complete(st.fields) && |columns| <= |values|
    ensures Complete(r.st.fields)
    decreases |columns|
  {
    if columns == [] then Outcome(st, None)
    else
      match Store(st, columns[0], values[0], parse)
      case Err(e) => Outcome(st, Some(e))
      case Ok(next) => Run(next, columns[1..], values[1..], parse)
  }

  class Entity {
    var fields: map<Column, Field>
    var selected: map<string, Holder>

    constructor ()
      ensures Complete(fields) && selected == map[]
      ensures forall c :: c in fields <==> !c.Other?
      ensures forall c :: c in fields ==> fields[c] == Zero(c)
    {
      fields := map c | c in COLUMNS :: Zero(c);
      selected := map[];
      new;
      assert forall c: Column :: c in COLUMNS <==> !c.Other? by { KnownColumns(); }
    }

    ghost function Now(): State
      reads this
    {
      State(fields, selected)
    }

    /** Stores the holders column by column; what was stored before an error stays stored. */
    method AssignValues(columns: seq<Column>, values: seq<Holder>, parse: Parser) returns (err: Option<AssignError>)
      requires Complete(fields)
      modifies this
      ensures Complete(fields)
      ensures |values| < |columns| ==> err == Some(WrongCount) && Now() == old(Now())
      ensures |columns| <= |values| ==> Outcome(Now(), err) == Run(old(Now()), columns, values, parse)
    {
      if |values| < |columns| {
        return Some(WrongCount);
      }
      var i := 0;
      while i < |columns|
        invariant 0 <= i <= |columns| && Complete(fields)
        invariant Run(old(Now()), columns, values, parse) == Run(Now(), columns[i..], values[i..], parse)
      {
        var c := columns[i];
        assert columns[i..][0] == c && columns[i..][1..] == columns[i + 1..];
        assert values[i..][0] == values[i] && values[i..][1..] == values[i + 1..];
        if c.Other? {
          selected := selected[c.name := values[i]];
        } else {
          match Put(c, fields[c], values[i], parse)
          case Err(e) => return Some(e);
          case Ok(f) => fields := fields[c := f];
        }
        i := i + 1;
      }
      return None;
    }
  }

  lemma KnownColumns()
    ensures forall c: Column :: c in COLUMNS <==> !c.Other?
  {
  }

  /** One new holder per column. */
  method ScanValues(columns: seq<Column>) returns (values: array<Holder>)
    ensures fresh(values) && values.Length == |columns|
    ensures forall i :: 0 <= i < |columns| ==> values[i] == Empty(ScanKind(columns[i]))
  {
    values := new Holder[|columns|];
    var i := 0;
    while i < |columns|
      invariant 0 <= i <= |columns|
      invariant forall j :: 0 <= j < i ==> values[j] == Empty(ScanKind(columns[j]))
    {
      values[i] := Empty(ScanKind(columns[i]));
      i := i + 1;
    }
  }
}
