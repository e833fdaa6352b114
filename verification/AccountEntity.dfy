/**
 The Account entity: its columns, its record of fields, and the pair `scanValues`/`assignValues`
 of backend/ent/account.go that reads it back from a row.
 */
module AccountEntity {
  import opened Text

  /** The column constants of backend/ent/account/account.go; `Other` is any other column name. */
  datatype Column =
    | ID | CreatedAt | UpdatedAt | DeletedAt | Name | Notes | Platform | Type | Credentials | Extra | ProxyID
    | Concurrency | LoadFactor | Priority | RateMultiplier | Status | ErrorMessage | LastUsedAt | ExpiresAt
    | AutoPauseOnExpired | Schedulable | RateLimitedAt | RateLimitResetAt | OverloadUntil
    | TempUnschedulableUntil | TempUnschedulableReason | SessionWindowStart | SessionWindowEnd
    | SessionWindowStatus | Other(columnName: string)

  type Time = int

  const ZERO_TIME: Time := 0

  /** A Go map decoded from JSON; `None` is the nil map. Its values stay encoded. */
  type GoMap = Option<map<string, string>>

  type Bytes = seq<bv8>

  /** `encoding/json` on the two JSON columns. */
  datatype Codec = Codec(marshal: GoMap -> Bytes, unmarshal: Bytes -> Option<GoMap>)

  /** What read-back needs of it: every map is encoded as something, and decodes to itself. */
  ghost predicate RoundTrips(codec: Codec) {
    forall m :: codec.marshal(m) != [] && codec.unmarshal(codec.marshal(m)) == Some(m)
  }

  /** The fields of the struct `Account`, grouped by their Go type; pointers are options. */
  datatype Fields = Fields(
    ints: Ints, times: Times, strs: Strs, rateMultiplier: real, flags: Flags, docs: Docs,
    selectValues: map<string, Holder>)

  datatype Ints = Ints(
    id: int, proxyID: Option<int>, concurrency: int, loadFactor: Option<int>, priority: int)

  datatype Times = Times(
    createdAt: Time, updatedAt: Time, deletedAt: Option<Time>, lastUsedAt: Option<Time>,
    expiresAt: Option<Time>, rateLimitedAt: Option<Time>, rateLimitResetAt: Option<Time>,
    overloadUntil: Option<Time>, tempUnschedulableUntil: Option<Time>, sessionWindowStart: Option<Time>,
    sessionWindowEnd: Option<Time>)

  datatype Strs = Strs(
    name: string, notes: Option<string>, platform: string, kind: string, status: string,
    errorMessage: Option<string>, tempUnschedulableReason: Option<string>, sessionWindowStatus: Option<string>)

  datatype Docs = Docs(credentials: GoMap, extra: GoMap)

  datatype Flags = Flags(autoPauseOnExpired: bool, schedulable: bool)

  /** The struct as `&Account{}` leaves it. */
  const ZERO: Fields := Fields(
    Ints(0, None, 0, None, 0),
    Times(ZERO_TIME, ZERO_TIME, None, None, None, None, None, None, None, None, None),
    Strs("", None, "", "", "", None, None, None),
    0.0,
    Flags(false, false),
    Docs(None, None),
    map[])

  /** A value of a column, as Go sees it. */
  datatype Val = VInt(i: int) | VTime(t: Time) | VStr(s: string) | VFloat(f: real) | VBool(b: bool) | VJson(m: GoMap)

  /** A scan target, with its NULL state. */
  datatype Holder =
    | NullInt64(valid: bool, i: int)
    | NullTime(valid: bool, t: Time)
    | NullString(valid: bool, s: string)
    | NullFloat64(valid: bool, f: real)
    | NullBool(valid: bool, b: bool)
    | RawBytes(bytes: Bytes)
    | UnknownType(cell: Cell)

  /** What the database stores. */
  datatype Cell =
    | NULL | CInt(i: int) | CTime(t: Time) | CStr(s: string) | CFloat(f: real) | CBool(b: bool) | CBytes(bytes: Bytes)

  /** The type a holder has, and the type a column's value has. */
  datatype Kind = KInt | KTime | KStr | KFloat | KBool | KJson | KUnknown

  function HolderKind(h: Holder): Kind {
    match h
    case NullInt64(_, _) => KInt
    case NullTime(_, _) => KTime
    case NullString(_, _) => KStr
    case NullFloat64(_, _) => KFloat
    case NullBool(_, _) => KBool
    case RawBytes(_) => KJson
    case UnknownType(_) => KUnknown
  }

  function ValKind(v: Val): Kind {
    match v
    case VInt(_) => KInt
    case VTime(_) => KTime
    case VStr(_) => KStr
    case VFloat(_) => KFloat
    case VBool(_) => KBool
    case VJson(_) => KJson
  }

  // ---------------------------------------------------------------------------
  // scanValues
  // ---------------------------------------------------------------------------

  /** The switch of `scanValues`. */
  function ScanKind(c: Column): Kind {
    match c
    case Credentials | Extra => KJson
    case AutoPauseOnExpired | Schedulable => KBool
    case RateMultiplier => KFloat
    case ID | ProxyID | Concurrency | LoadFactor | Priority => KInt
    case Name | Notes | Platform | Type | Status | ErrorMessage | TempUnschedulableReason | SessionWindowStatus => KStr
    case CreatedAt | UpdatedAt | DeletedAt | LastUsedAt | ExpiresAt | RateLimitedAt | RateLimitResetAt
    | OverloadUntil | TempUnschedulableUntil | SessionWindowStart | SessionWindowEnd => KTime
    case Other(_) => KUnknown
  }

  function EmptyHolder(k: Kind): (h: Holder)
    ensures HolderKind(h) == k
  {
    match k
    case KInt => NullInt64(false, 0)
    case KTime => NullTime(false, ZERO_TIME)
    case KStr => NullString(false, "")
    case KFloat => NullFloat64(false, 0.0)
    case KBool => NullBool(false, false)
    case KJson => RawBytes([])
    case KUnknown => UnknownType(NULL)
  }

  method ScanValues(columns: seq<Column>) returns (values: seq<Holder>)
    ensures |values| == |columns|
    ensures forall i :: 0 <= i < |columns| ==> values[i] == EmptyHolder(ScanKind(columns[i]))
  {
    values := [];
    for i := 0 to |columns|
      invariant |values| == i
      invariant forall j :: 0 <= j < i ==> values[j] == EmptyHolder(ScanKind(columns[j]))
    {
      values := values + [EmptyHolder(ScanKind(columns[i]))];
    }
  }

  // ---------------------------------------------------------------------------
  // assignValues
  // ---------------------------------------------------------------------------

  datatype ScanError = TooFewValues | BadType(column: Column) | BadJson(column: Column)

  /** A holder that was scanned from something other than NULL. */
  predicate Carries(h: Holder) {
    match h
    case RawBytes(bytes) => bytes != []
    case UnknownType(_) => true
    case _ => h.valid
  }

  function SetInt(x: Ints, c: Column, v: int): Ints
    requires ScanKind(c) == KInt
  {
    match c
    case ID => x.(id := v)
    case ProxyID => x.(proxyID := Some(v))
    case Concurrency => x.(concurrency := v)
    case LoadFactor => x.(loadFactor := Some(v))
    case Priority => x.(priority := v)
  }

  function SetTime(x: Times, c: Column, v: Time): Times
    requires ScanKind(c) == KTime
  {
    match c
    case CreatedAt => x.(createdAt := v)
    case UpdatedAt => x.(updatedAt := v)
    case DeletedAt => x.(deletedAt := Some(v))
    case LastUsedAt => x.(lastUsedAt := Some(v))
    case ExpiresAt => x.(expiresAt := Some(v))
    case RateLimitedAt => x.(rateLimitedAt := Some(v))
    case RateLimitResetAt => x.(rateLimitResetAt := Some(v))
    case OverloadUntil => x.(overloadUntil := Some(v))
    case TempUnschedulableUntil => x.(tempUnschedulableUntil := Some(v))
    case SessionWindowStart => x.(sessionWindowStart := Some(v))
    case SessionWindowEnd => x.(sessionWindowEnd := Some(v))
  }

  function SetStr(x: Strs, c: Column, v: string): Strs
    requires ScanKind(c) == KStr
  {
    match c
    case Name => x.(name := v)
    case Notes => x.(notes := Some(v))
    case Platform => x.(platform := v)
    case Type => x.(kind := v)
    case Status => x.(status := v)
    case ErrorMessage => x.(errorMessage := Some(v))
    case TempUnschedulableReason => x.(tempUnschedulableReason := Some(v))
    case SessionWindowStatus => x.(sessionWindowStatus := Some(v))
  }

  function SetBool(x: Flags, c: Column, v: bool): Flags
    requires ScanKind(c) == KBool
  {
    match c
    case AutoPauseOnExpired => x.(autoPauseOnExpired := v)
    case Schedulable => x.(schedulable := v)
  }

  function SetJson(x: Docs, c: Column, v: GoMap): Docs
    requires ScanKind(c) == KJson
  {
    match c
    case Credentials => x.(credentials := v)
    case Extra => x.(extra := v)
  }

  /** `_m.Field = v` for the field of column `c`; a pointer field is set to a fresh pointer to `v`. */
  function Put(a: Fields, c: Column, v: Val): Fields
    requires ValKind(v) == ScanKind(c)
  {
    match v
    case VInt(i) => a.(ints := SetInt(a.ints, c, i))
    case VTime(t) => a.(times := SetTime(a.times, c, t))
    case VStr(s) => a.(strs := SetStr(a.strs, c, s))
    case VFloat(f) => a.(rateMultiplier := f)
    case VBool(b) => a.(flags := SetBool(a.flags, c, b))
    case VJson(m) => a.(docs := SetJson(a.docs, c, m))
  }

  /** The value a holder carries. */
  function HeldVal(codec: Codec, h: Holder): (v: Val)
    requires !h.UnknownType? && Decodes(codec, h) && Carries(h)
    ensures ValKind(v) == HolderKind(h)
  {
    match h
    case NullInt64(_, i) => VInt(i)
    case NullTime(_, t) => VTime(t)
    case NullString(_, s) => VStr(s)
    case NullFloat64(_, f) => VFloat(f)
    case NullBool(_, b) => VBool(b)
    case RawBytes(bytes) => VJson(codec.unmarshal(bytes).value)
  }

  /** `json.Unmarshal` into a map: `null` makes it nil, an object is added to the entries already there. */
  function Merge(before: GoMap, decoded: GoMap): GoMap {
    if before.None? || decoded.None? then decoded else Some(before.value + decoded.value)
  }

  /** What a field that shows `before` shows after `v` was scanned into it. */
  function Landed(before: Option<Val>, v: Val): (r: Val)
    ensures ValKind(r) == ValKind(v)
  {
    if v.VJson? && before.Some? && before.value.VJson? then VJson(Merge(before.value.m, v.m)) else v
  }

  /** What `assignValues` does for a known column with a holder of the right type: the ID is taken
      as it is, any other column only when the holder carries something. */
  function SetColumn(codec: Codec, a: Fields, c: Column, h: Holder): Fields
    requires !c.Other? && HolderKind(h) == ScanKind(c) && Decodes(codec, h)
  {
    if c == ID then Put(a, ID, VInt(h.i))
    else if Carries(h) then Put(a, c, Landed(Get(a, c), HeldVal(codec, h)))
    else a
  }

  predicate Decodes(codec: Codec, h: Holder) {
    h.RawBytes? && h.bytes != [] ==> codec.unmarshal(h.bytes).Some?
  }

  /** What a loop over columns leaves: the fields so far, and the error that stopped it, if any. */
  datatype Assigned = Assigned(fields: Fields, error: Option<ScanError>)

  /** One iteration of `assignValues`; an unknown column goes to the extra values. */
  function AssignColumn(codec: Codec, a: Fields, c: Column, h: Holder): Assigned {
    if c.Other? then Assigned(a.(selectValues := a.selectValues[c.columnName := h]), None)
    else if HolderKind(h) != ScanKind(c) then Assigned(a, Some(BadType(c)))
    else if !Decodes(codec, h) then Assigned(a, Some(BadJson(c)))
    else Assigned(SetColumn(codec, a, c, h), None)
  }

  function AssignFrom(codec: Codec, a: Fields, columns: seq<Column>, values: seq<Holder>): Assigned
    requires |columns| <= |values|
    decreases |columns|
  {
    if columns == [] then Assigned(a, None)
    else
      var r := AssignColumn(codec, a, columns[0], values[0]);
      if r.error.Some? then r else AssignFrom(codec, r.fields, columns[1..], values[1..])
  }

  function Assign(codec: Codec, a: Fields, columns: seq<Column>, values: seq<Holder>): Assigned {
    if |values| < |columns| then Assigned(a, Some(TooFewValues)) else AssignFrom(codec, a, columns, values)
  }

  // ---------------------------------------------------------------------------
  // Columns of the record
  // ---------------------------------------------------------------------------

  function GetInt(x: Ints, c: Column): Option<int>
    requires ScanKind(c) == KInt
  {
    match c
    case ID => Some(x.id)
    case ProxyID => x.proxyID
    case Concurrency => Some(x.concurrency)
    case LoadFactor => x.loadFactor
    case Priority => Some(x.priority)
  }

  function GetTime(x: Times, c: Column): Option<Time>
    requires ScanKind(c) == KTime
  {
    match c
    case CreatedAt => Some(x.createdAt)
    case UpdatedAt => Some(x.updatedAt)
    case DeletedAt => x.deletedAt
    case LastUsedAt => x.lastUsedAt
    case ExpiresAt => x.expiresAt
    case RateLimitedAt => x.rateLimitedAt
    case RateLimitResetAt => x.rateLimitResetAt
    case OverloadUntil => x.overloadUntil
    case TempUnschedulableUntil => x.tempUnschedulableUntil
    case SessionWindowStart => x.sessionWindowStart
    case SessionWindowEnd => x.sessionWindowEnd
  }

  function GetStr(x: Strs, c: Column): Option<string>
    requires ScanKind(c) == KStr
  {
    match c
    case Name => Some(x.name)
    case Notes => x.notes
    case Platform => Some(x.platform)
    case Type => Some(x.kind)
    case Status => Some(x.status)
    case ErrorMessage => x.errorMessage
    case TempUnschedulableReason => x.tempUnschedulableReason
    case SessionWindowStatus => x.sessionWindowStatus
  }

  function GetBool(x: Flags, c: Column): Option<bool>
    requires ScanKind(c) == KBool
  {
    match c
    case AutoPauseOnExpired => Some(x.autoPauseOnExpired)
    case Schedulable => Some(x.schedulable)
  }

  function GetJson(x: Docs, c: Column): Option<GoMap>
    requires ScanKind(c) == KJson
  {
    match c
    case Credentials => Some(x.credentials)
    case Extra => Some(x.extra)
  }

  /** The value the record shows for a column; `None` for a nil pointer. */
  function Get(a: Fields, c: Column): Option<Val> {
    match ScanKind(c)
    case KInt => (match GetInt(a.ints, c) case None => None case Some(v) => Some(VInt(v)))
    case KTime => (match GetTime(a.times, c) case None => None case Some(v) => Some(VTime(v)))
    case KStr => (match GetStr(a.strs, c) case None => None case Some(v) => Some(VStr(v)))
    case KFloat => Some(VFloat(a.rateMultiplier))
    case KBool => (match GetBool(a.flags, c) case None => None case Some(v) => Some(VBool(v)))
    case KJson => (match GetJson(a.docs, c) case None => None case Some(v) => Some(VJson(v)))
    case KUnknown => None
  }

  /** The record is determined by what it shows for the known columns (and its extra values). */
  lemma FieldsExtensional(a: Fields, b: Fields)
    requires forall c: Column :: Get(a, c) == Get(b, c)
    requires a.selectValues == b.selectValues
    ensures a == b
  {
    assert a.ints == b.ints by {
      forall c: Column | ScanKind(c) == KInt
        ensures GetInt(a.ints, c) == GetInt(b.ints, c)
      {
        assert Get(a, c) == Get(b, c);
      }
      IntsExtensional(a.ints, b.ints);
    }
    assert a.times == b.times by {
      forall c: Column | ScanKind(c) == KTime
        ensures GetTime(a.times, c) == GetTime(b.times, c)
      {
        assert Get(a, c) == Get(b, c);
      }
      TimesExtensional(a.times, b.times);
    }
    assert a.strs == b.strs by {
      forall c: Column | ScanKind(c) == KStr
        ensures GetStr(a.strs, c) == GetStr(b.strs, c)
      {
        assert Get(a, c) == Get(b, c);
      }
      StrsExtensional(a.strs, b.strs);
    }
    assert a.flags == b.flags by {
      forall c: Column | ScanKind(c) == KBool
        ensures GetBool(a.flags, c) == GetBool(b.flags, c)
      {
        assert Get(a, c) == Get(b, c);
      }
      FlagsExtensional(a.flags, b.flags);
    }
    assert a.docs == b.docs by {
      forall c: Column | ScanKind(c) == KJson
        ensures GetJson(a.docs, c) == GetJson(b.docs, c)
      {
        assert Get(a, c) == Get(b, c);
      }
      DocsExtensional(a.docs, b.docs);
    }
    assert Get(a, RateMultiplier) == Get(b, RateMultiplier);
  }

  lemma IntsExtensional(x: Ints, y: Ints)
    requires forall c: Column :: ScanKind(c) == KInt ==> GetInt(x, c) == GetInt(y, c)
    ensures x == y
  {
    assert GetInt(x, ID) == GetInt(y, ID);
    assert GetInt(x, ProxyID) == GetInt(y, ProxyID);
    assert GetInt(x, Concurrency) == GetInt(y, Concurrency);
    assert GetInt(x, LoadFactor) == GetInt(y, LoadFactor);
    assert GetInt(x, Priority) == GetInt(y, Priority);
  }

  lemma TimesExtensional(x: Times, y: Times)
    requires forall c: Column :: ScanKind(c) == KTime ==> GetTime(x, c) == GetTime(y, c)
    ensures x == y
  {
    assert x.createdAt == y.createdAt by { assert GetTime(x, CreatedAt) == GetTime(y, CreatedAt); }
    assert x.updatedAt == y.updatedAt by { assert GetTime(x, UpdatedAt) == GetTime(y, UpdatedAt); }
    assert x.deletedAt == y.deletedAt by { assert GetTime(x, DeletedAt) == GetTime(y, DeletedAt); }
    assert x.lastUsedAt == y.lastUsedAt by { assert GetTime(x, LastUsedAt) == GetTime(y, LastUsedAt); }
    assert x.expiresAt == y.expiresAt by { assert GetTime(x, ExpiresAt) == GetTime(y, ExpiresAt); }
    assert x.rateLimitedAt == y.rateLimitedAt by { assert GetTime(x, RateLimitedAt) == GetTime(y, RateLimitedAt); }
    assert x.rateLimitResetAt == y.rateLimitResetAt by {
      assert GetTime(x, RateLimitResetAt) == GetTime(y, RateLimitResetAt);
    }
    assert x.overloadUntil == y.overloadUntil by { assert GetTime(x, OverloadUntil) == GetTime(y, OverloadUntil); }
    assert x.tempUnschedulableUntil == y.tempUnschedulableUntil by {
      assert GetTime(x, TempUnschedulableUntil) == GetTime(y, TempUnschedulableUntil);
    }
    assert x.sessionWindowStart == y.sessionWindowStart by {
      assert GetTime(x, SessionWindowStart) == GetTime(y, SessionWindowStart);
    }
    assert x.sessionWindowEnd == y.sessionWindowEnd by {
      assert GetTime(x, SessionWindowEnd) == GetTime(y, SessionWindowEnd);
    }
  }

  lemma StrsExtensional(x: Strs, y: Strs)
    requires forall c: Column :: ScanKind(c) == KStr ==> GetStr(x, c) == GetStr(y, c)
    ensures x == y
  {
    assert x.name == y.name by { assert GetStr(x, Name) == GetStr(y, Name); }
    assert x.notes == y.notes by { assert GetStr(x, Notes) == GetStr(y, Notes); }
    assert x.platform == y.platform by { assert GetStr(x, Platform) == GetStr(y, Platform); }
    assert x.kind == y.kind by { assert GetStr(x, Type) == GetStr(y, Type); }
    assert x.status == y.status by { assert GetStr(x, Status) == GetStr(y, Status); }
    assert x.errorMessage == y.errorMessage by { assert GetStr(x, ErrorMessage) == GetStr(y, ErrorMessage); }
    assert x.tempUnschedulableReason == y.tempUnschedulableReason by {
      assert GetStr(x, TempUnschedulableReason) == GetStr(y, TempUnschedulableReason);
    }
    assert x.sessionWindowStatus == y.sessionWindowStatus by {
      assert GetStr(x, SessionWindowStatus) == GetStr(y, SessionWindowStatus);
    }
  }

  lemma FlagsExtensional(x: Flags, y: Flags)
    requires forall c: Column :: ScanKind(c) == KBool ==> GetBool(x, c) == GetBool(y, c)
    ensures x == y
  {
    assert GetBool(x, AutoPauseOnExpired) == GetBool(y, AutoPauseOnExpired);
    assert GetBool(x, Schedulable) == GetBool(y, Schedulable);
  }

  lemma DocsExtensional(x: Docs, y: Docs)
    requires forall c: Column :: ScanKind(c) == KJson ==> GetJson(x, c) == GetJson(y, c)
    ensures x == y
  {
    assert GetJson(x, Credentials) == GetJson(y, Credentials);
    assert GetJson(x, Extra) == GetJson(y, Extra);
  }

  /** Setting a field changes what the record shows for its column, and for no other. */
  lemma PutGet(a: Fields, c: Column, v: Val, d: Column)
    requires ValKind(v) == ScanKind(c)
    ensures Get(Put(a, c, v), d) == if d == c then Some(v) else Get(a, d)
    ensures Put(a, c, v).selectValues == a.selectValues
  {
    match v {
      case VInt(_) => PutInt(a, c, v, d);
      case VTime(_) => PutTime(a, c, v, d);
      case VStr(_) => PutStr(a, c, v, d);
      case VFloat(_) => PutFloat(a, c, v, d);
      case VBool(_) => PutBool(a, c, v, d);
      case VJson(_) => PutJson(a, c, v, d);
    }
  }

  lemma PutInt(a: Fields, c: Column, v: Val, d: Column)
    requires ScanKind(c) == KInt && v.VInt?
    ensures Get(Put(a, c, v), d) == if d == c then Some(v) else Get(a, d)
    ensures Put(a, c, v).selectValues == a.selectValues
  {
    if ScanKind(d) == KInt {
      SetIntGet(a.ints, c, v.i, d);
    }
  }

  lemma PutTime(a: Fields, c: Column, v: Val, d: Column)
    requires ScanKind(c) == KTime && v.VTime?
    ensures Get(Put(a, c, v), d) == if d == c then Some(v) else Get(a, d)
    ensures Put(a, c, v).selectValues == a.selectValues
  {
    if ScanKind(d) == KTime {
      SetTimeGet(a.times, c, v.t, d);
    }
  }

  lemma PutStr(a: Fields, c: Column, v: Val, d: Column)
    requires ScanKind(c) == KStr && v.VStr?
    ensures Get(Put(a, c, v), d) == if d == c then Some(v) else Get(a, d)
    ensures Put(a, c, v).selectValues == a.selectValues
  {
    if ScanKind(d) == KStr {
      SetStrGet(a.strs, c, v.s, d);
    }
  }

  lemma PutFloat(a: Fields, c: Column, v: Val, d: Column)
    requires ScanKind(c) == KFloat && v.VFloat?
    ensures Get(Put(a, c, v), d) == if d == c then Some(v) else Get(a, d)
    ensures Put(a, c, v).selectValues == a.selectValues
  {
  }

  lemma PutBool(a: Fields, c: Column, v: Val, d: Column)
    requires ScanKind(c) == KBool && v.VBool?
    ensures Get(Put(a, c, v), d) == if d == c then Some(v) else Get(a, d)
    ensures Put(a, c, v).selectValues == a.selectValues
  {
    if ScanKind(d) == KBool {
      SetBoolGet(a.flags, c, v.b, d);
    }
  }

  lemma PutJson(a: Fields, c: Column, v: Val, d: Column)
    requires ScanKind(c) == KJson && v.VJson?
    ensures Get(Put(a, c, v), d) == if d == c then Some(v) else Get(a, d)
    ensures Put(a, c, v).selectValues == a.selectValues
  {
    if ScanKind(d) == KJson {
      SetJsonGet(a.docs, c, v.m, d);
    }
  }

  lemma SetIntGet(x: Ints, c: Column, v: int, d: Column)
    requires ScanKind(c) == ScanKind(d) == KInt
    ensures GetInt(SetInt(x, c, v), d) == if d == c then Some(v) else GetInt(x, d)
  {
  }

  lemma SetTimeGet(x: Times, c: Column, v: Time, d: Column)
    requires ScanKind(c) == ScanKind(d) == KTime
    ensures GetTime(SetTime(x, c, v), d) == if d == c then Some(v) else GetTime(x, d)
  {
  }

  lemma SetStrGet(x: Strs, c: Column, v: string, d: Column)
    requires ScanKind(c) == ScanKind(d) == KStr
    ensures GetStr(SetStr(x, c, v), d) == if d == c then Some(v) else GetStr(x, d)
  {
  }

  lemma SetBoolGet(x: Flags, c: Column, v: bool, d: Column)
    requires ScanKind(c) == ScanKind(d) == KBool
    ensures GetBool(SetBool(x, c, v), d) == if d == c then Some(v) else GetBool(x, d)
  {
  }

  lemma SetJsonGet(x: Docs, c: Column, v: GoMap, d: Column)
    requires ScanKind(c) == ScanKind(d) == KJson
    ensures GetJson(SetJson(x, c, v), d) == if d == c then Some(v) else GetJson(x, d)
  {
  }

  // ---------------------------------------------------------------------------
  // Reading a row
  // ---------------------------------------------------------------------------

  /** A row of the table: a cell for every column name. */
  type Row = Column -> Cell

  /** The holder of kind `k` after the driver scanned `cell` into it. */
  function Fill(k: Kind, cell: Cell): (h: Holder)
    ensures HolderKind(h) == k
  {
    match k
    case KInt => if cell.CInt? then NullInt64(true, cell.i) else EmptyHolder(k)
    case KTime => if cell.CTime? then NullTime(true, cell.t) else EmptyHolder(k)
    case KStr => if cell.CStr? then NullString(true, cell.s) else EmptyHolder(k)
    case KFloat => if cell.CFloat? then NullFloat64(true, cell.f) else EmptyHolder(k)
    case KBool => if cell.CBool? then NullBool(true, cell.b) else EmptyHolder(k)
    case KJson => if cell.CBytes? then RawBytes(cell.bytes) else EmptyHolder(k)
    case KUnknown => UnknownType(cell)
  }

  function Scanned(columns: seq<Column>, row: Row): (values: seq<Holder>)
    ensures |values| == |columns|
    ensures forall i :: 0 <= i < |columns| ==> values[i] == Fill(ScanKind(columns[i]), row(columns[i]))
  {
    seq(|columns|, i requires 0 <= i < |columns| => Fill(ScanKind(columns[i]), row(columns[i])))
  }

  /** A fresh entity filled from the given columns of a row. */
  function ReadRow(codec: Codec, columns: seq<Column>, row: Row): Assigned {
    Assign(codec, ZERO, columns, Scanned(columns, row))
  }

  predicate Matches(codec: Codec, c: Column, h: Holder) {
    c.Other? || (HolderKind(h) == ScanKind(c) && Decodes(codec, h))
  }

  lemma {:induction false} AssignFromSucceeds(codec: Codec, a: Fields, columns: seq<Column>, values: seq<Holder>)
    requires |columns| <= |values|
    ensures AssignFrom(codec, a, columns, values).error.None? <==>
            forall i :: 0 <= i < |columns| ==> Matches(codec, columns[i], values[i])
    decreases |columns|
  {
    if columns != [] {
      var r := AssignColumn(codec, a, columns[0], values[0]);
      assert r.error.None? <==> Matches(codec, columns[0], values[0]);
      if r.error.None? {
        AssignFromSucceeds(codec, r.fields, columns[1..], values[1..]);
        assert forall i :: 0 < i < |columns| ==>
          columns[i] == columns[1..][i - 1] && values[i] == values[1..][i - 1];
      }
    }
  }

  /** `assignValues` succeeds exactly when there are enough values and each known column has a
      holder of its type that decodes. */
  lemma AssignSucceedsIff(codec: Codec, a: Fields, columns: seq<Column>, values: seq<Holder>)
    ensures Assign(codec, a, columns, values).error.None? <==>
            |columns| <= |values| && forall i :: 0 <= i < |columns| ==> Matches(codec, columns[i], values[i])
  {
    if |columns| <= |values| {
      AssignFromSucceeds(codec, a, columns, values);
    }
  }

  /** For every list of column names, known or not and with repeats, on any row: the holders of
      `scanValues` never cause a length or type error; only undecodable JSON can. */
  lemma {:induction false} ScanThenAssign(codec: Codec, a: Fields, columns: seq<Column>, row: Row)
    ensures var e := Assign(codec, a, columns, Scanned(columns, row)).error;
            e.None? || e.value.BadJson?
    decreases |columns|
  {
    if columns != [] {
      var values := Scanned(columns, row);
      var r := AssignColumn(codec, a, columns[0], values[0]);
      assert values[1..] == Scanned(columns[1..], row);
      if r.error.None? {
        ScanThenAssign(codec, r.fields, columns[1..], row);
      }
    }
  }

  /** A cell that the column can hold: NULL, or of its type and decodable if there is anything to decode. */
  predicate CellOk(codec: Codec, c: Column, cell: Cell) {
    match ScanKind(c)
    case KInt => cell.CInt? || cell.NULL?
    case KTime => cell.CTime? || cell.NULL?
    case KStr => cell.CStr? || cell.NULL?
    case KFloat => cell.CFloat? || cell.NULL?
    case KBool => cell.CBool? || cell.NULL?
    case KJson => (cell.CBytes? && (cell.bytes == [] || codec.unmarshal(cell.bytes).Some?)) || cell.NULL?
    case KUnknown => true
  }

  /** Nothing is there: NULL, or no bytes at all. */
  predicate Absent(cell: Cell) {
    cell == NULL || cell == CBytes([])
  }

  /** What any other cell means for the record. */
  function CellVal(codec: Codec, c: Column, cell: Cell): (v: Val)
    requires !c.Other? && CellOk(codec, c, cell) && !Absent(cell)
    ensures ValKind(v) == ScanKind(c)
  {
    HeldVal(codec, Fill(ScanKind(c), cell))
  }

  /** What a field that shows `before` shows after the cell was read into it: a missing key is zero, any other
      field is left alone by a missing value. */
  function Read(codec: Codec, c: Column, cell: Cell, before: Option<Val>): Option<Val>
    requires !c.Other? && CellOk(codec, c, cell)
  {
    if !Absent(cell) then Some(Landed(before, CellVal(codec, c, cell)))
    else if c == ID then Some(VInt(0))
    else before
  }

  /** The holder carries something exactly if something is there. */
  lemma FillCarries(codec: Codec, c: Column, cell: Cell)
    requires CellOk(codec, c, cell)
    ensures var h := Fill(ScanKind(c), cell);
            && Decodes(codec, h) && (Carries(h) <==> c.Other? || !Absent(cell))
            && (c == ID ==> h == if Absent(cell) then NullInt64(false, 0) else NullInt64(true, cell.i))
            && (c.Other? ==> h == UnknownType(cell))
    ensures c == ID && !Absent(cell) ==> CellVal(codec, c, cell) == VInt(cell.i)
  {
  }

  lemma AssignColumnShape(codec: Codec, a: Fields, c: Column, cell: Cell)
    requires CellOk(codec, c, cell)
    ensures AssignColumn(codec, a, c, Fill(ScanKind(c), cell)) ==
            Assigned(if c.Other? then a.(selectValues := a.selectValues[c.columnName := UnknownType(cell)])
                     else if !Absent(cell) then Put(a, c, Landed(Get(a, c), CellVal(codec, c, cell)))
                     else if c == ID then Put(a, ID, VInt(0))
                     else a, None)
  {
    FillCarries(codec, c, cell);
    hide Put, Get, Fill, CellOk, ScanKind;
    if c == ID {
      AssignKey(codec, a, Fill(ScanKind(ID), cell));
    } else if !c.Other? {
      hide Landed;
      AssignCarried(codec, a, c, Fill(ScanKind(c), cell));
    }
  }

  lemma AssignKey(codec: Codec, a: Fields, h: Holder)
    requires h.NullInt64?
    ensures AssignColumn(codec, a, ID, h) == Assigned(Put(a, ID, VInt(h.i)), None)
  {
    hide Put;
  }

  lemma AssignCarried(codec: Codec, a: Fields, c: Column, h: Holder)
    requires c != ID && !c.Other? && HolderKind(h) == ScanKind(c) && Decodes(codec, h)
    ensures !h.UnknownType?
    ensures AssignColumn(codec, a, c, h) ==
            Assigned(if Carries(h) then Put(a, c, Landed(Get(a, c), HeldVal(codec, h))) else a, None)
  {
    hide Put, Get, Landed, HeldVal, Decodes, Carries;
  }

  lemma GetIgnoresExtra(a: Fields, extra: map<string, Holder>, d: Column)
    ensures Get(a.(selectValues := extra), d) == Get(a, d)
  {
  }

  lemma AssignColumnReads(codec: Codec, a: Fields, c: Column, row: Row, d: Column)
    requires CellOk(codec, c, row(c))
    ensures var r := AssignColumn(codec, a, c, Fill(ScanKind(c), row(c)));
            && r.error.None?
            && Get(r.fields, d) == (if d == c && !c.Other? then Read(codec, c, row(c), Get(a, c)) else Get(a, d))
            && r.fields.selectValues ==
               if c.Other? then a.selectValues[c.columnName := UnknownType(row(c))] else a.selectValues
  {
    hide Put, Get, Landed, AssignColumn, CellVal, Fill, CellOk;
    AssignColumnShape(codec, a, c, row(c));
    if c.Other? {
      GetIgnoresExtra(a, a.selectValues[c.columnName := UnknownType(row(c))], d);
    } else if !Absent(row(c)) {
      PutGet(a, c, Landed(Get(a, c), CellVal(codec, c, row(c))), d);
    } else if c == ID {
      PutGet(a, ID, VInt(0), d);
    }
  }

  /** Scanning the same value twice is scanning it once. */
  lemma LandedTwice(before: Option<Val>, v: Val)
    ensures Landed(Some(Landed(before, v)), v) == Landed(before, v)
  {
    if v.VJson? && before.Some? && before.value.VJson? && before.value.m.Some? && v.m.Some? {
      assert before.value.m.value + v.m.value + v.m.value == before.value.m.value + v.m.value;
    } else if v.VJson? && v.m.Some? {
      assert v.m.value + v.m.value == v.m.value;
    }
  }

  lemma LandedFresh(d: Column, v: Val)
    ensures Landed(Get(ZERO, d), v) == v
  {
  }

  lemma ReadTwice(codec: Codec, c: Column, cell: Cell, before: Option<Val>)
    requires !c.Other? && CellOk(codec, c, cell)
    ensures Read(codec, c, cell, Read(codec, c, cell, before)) == Read(codec, c, cell, before)
  {
    if !Absent(cell) {
      LandedTwice(before, CellVal(codec, c, cell));
    }
  }

  lemma {:induction false} AssignReads(codec: Codec, a: Fields, columns: seq<Column>, row: Row, d: Column)
    requires forall i :: 0 <= i < |columns| ==> CellOk(codec, columns[i], row(columns[i]))
    ensures var r := AssignFrom(codec, a, columns, Scanned(columns, row));
            && r.error.None?
            && Get(r.fields, d) == if d in columns && !d.Other? then Read(codec, d, row(d), Get(a, d)) else Get(a, d)
    decreases |columns|
  {
    if columns != [] {
      var values := Scanned(columns, row);
      assert columns == [columns[0]] + columns[1..];
      AssignColumnReads(codec, a, columns[0], row, d);
      var r := AssignColumn(codec, a, columns[0], values[0]);
      assert values[1..] == Scanned(columns[1..], row);
      hide Read, Get, AssignColumn, Fill;
      AssignReads(codec, r.fields, columns[1..], row, d);
      if d == columns[0] && !d.Other? {
        ReadTwice(codec, d, row(d), Get(a, d));
      }
    }
  }

  lemma {:induction false} AssignExtra(codec: Codec, a: Fields, columns: seq<Column>, row: Row, name: string)
    requires forall i :: 0 <= i < |columns| ==> CellOk(codec, columns[i], row(columns[i]))
    ensures var extra := AssignFrom(codec, a, columns, Scanned(columns, row)).fields.selectValues;
            && (name in extra <==> Other(name) in columns || name in a.selectValues)
            && (name in extra ==>
                 extra[name] == if Other(name) in columns then UnknownType(row(Other(name))) else a.selectValues[name])
    decreases |columns|
  {
    if columns != [] {
      var values := Scanned(columns, row);
      assert columns == [columns[0]] + columns[1..];
      AssignColumnReads(codec, a, columns[0], row, columns[0]);
      var r := AssignColumn(codec, a, columns[0], values[0]);
      assert values[1..] == Scanned(columns[1..], row);
      hide Read, Get, AssignColumn, Fill, CellOk;
      AssignExtra(codec, r.fields, columns[1..], row, name);
    }
  }

  /** The columns whose field is a pointer, nil at first. */
  predicate Nullable(c: Column) {
    c in {ProxyID, LoadFactor, DeletedAt, LastUsedAt, ExpiresAt, RateLimitedAt, RateLimitResetAt, OverloadUntil,
          TempUnschedulableUntil, SessionWindowStart, SessionWindowEnd, Notes, ErrorMessage, TempUnschedulableReason,
          SessionWindowStatus}
  }

  /** What a new record shows: nothing for a pointer, and the zero of its type for any other column. */
  lemma ZeroShows(d: Column)
    requires !d.Other?
    ensures Nullable(d) ==> Get(ZERO, d) == None
    ensures !Nullable(d) ==>
              && (ScanKind(d) == KInt ==> Get(ZERO, d) == Some(VInt(0)))
              && (ScanKind(d) == KTime ==> Get(ZERO, d) == Some(VTime(ZERO_TIME)))
              && (ScanKind(d) == KStr ==> Get(ZERO, d) == Some(VStr("")))
              && (ScanKind(d) == KFloat ==> Get(ZERO, d) == Some(VFloat(0.0)))
              && (ScanKind(d) == KBool ==> Get(ZERO, d) == Some(VBool(false)))
              && (ScanKind(d) == KJson ==> Get(ZERO, d) == Some(VJson(None)))
  {
  }

  /** Reading a row through any list of columns shows, for each known column, the stored value if the column was
      read and something is stored, and the zero value otherwise; each unknown column that was read is kept as
      it came. */
  lemma ReadRowGet(codec: Codec, columns: seq<Column>, row: Row, d: Column)
    requires forall i :: 0 <= i < |columns| ==> CellOk(codec, columns[i], row(columns[i]))
    ensures ReadRow(codec, columns, row).error.None?
    ensures Get(ReadRow(codec, columns, row).fields, d) ==
            if d in columns && !d.Other? && !Absent(row(d)) then Some(CellVal(codec, d, row(d))) else Get(ZERO, d)
    ensures d.Other? ==>
              var extra := ReadRow(codec, columns, row).fields.selectValues;
              && (d.columnName in extra <==> d in columns)
              && (d in columns ==> extra[d.columnName] == UnknownType(row(d)))
  {
    AssignReads(codec, ZERO, columns, row, d);
    if d.Other? {
      AssignExtra(codec, ZERO, columns, row, d.columnName);
    } else if d in columns {
      if !Absent(row(d)) {
        LandedFresh(d, CellVal(codec, d, row(d)));
      } else {
        ZeroShows(ID);
      }
    }
    hide Get, CellVal, Landed;
  }

  /** Merging keeps the old entries and lets the decoded ones win; `null` makes the map nil. */
  lemma MergeEntries(before: GoMap, decoded: GoMap)
    ensures decoded.None? ==> Merge(before, decoded) == None
    ensures decoded.Some? ==>
              && Merge(before, decoded).Some?
              && forall k ::
                   && (k in Merge(before, decoded).value <==> k in decoded.value || (before.Some? && k in before.value))
                   && (k in decoded.value ==> Merge(before, decoded).value[k] == decoded.value[k])
                   && (k !in decoded.value && before.Some? && k in before.value ==>
                        Merge(before, decoded).value[k] == before.value[k])
  {
  }

  lemma {:induction false} AssignFromStops(codec: Codec, a: Fields, columns: seq<Column>, values: seq<Holder>, k: nat)
    requires k < |columns| <= |values| && !Matches(codec, columns[k], values[k])
    requires forall i :: 0 <= i < k ==> Matches(codec, columns[i], values[i])
    ensures AssignFrom(codec, a, columns, values) ==
            Assigned(AssignFrom(codec, a, columns[..k], values[..k]).fields,
                     Some(if HolderKind(values[k]) != ScanKind(columns[k]) then BadType(columns[k])
                          else BadJson(columns[k])))
    decreases |columns|
  {
    if k > 0 {
      var r := AssignColumn(codec, a, columns[0], values[0]);
      assert Matches(codec, columns[0], values[0]);
      assert r.error.None?;
      AssignFromStops(codec, r.fields, columns[1..], values[1..], k - 1);
      assert columns[..k][1..] == columns[1..][..k - 1] && values[..k][1..] == values[1..][..k - 1];
    }
  }

  /** Which error is reported: that of the first column whose holder has another type or does not decode; the
      columns before it stay assigned, and those after it are not touched. */
  lemma AssignStops(codec: Codec, a: Fields, columns: seq<Column>, values: seq<Holder>, k: nat)
    requires k < |columns| <= |values| && !Matches(codec, columns[k], values[k])
    requires forall i :: 0 <= i < k ==> Matches(codec, columns[i], values[i])
    ensures Assign(codec, a, columns, values) ==
            Assigned(Assign(codec, a, columns[..k], values[..k]).fields,
                     Some(if HolderKind(values[k]) != ScanKind(columns[k]) then BadType(columns[k])
                          else BadJson(columns[k])))
  {
    AssignFromStops(codec, a, columns, values, k);
  }
}
