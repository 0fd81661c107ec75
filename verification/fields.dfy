/** An update-request struct as the builder sees it: an ordered list of
    field descriptors standing in for Go reflection over the struct's fields,
    and the values that can end up in the update map. */
module Fields {
  import opened Strings

  datatype Option<+T> = None | Some(value: T)

  /** Range of Go's `int64`, the type `reflect.Value.Int` widens to. */
  type Int64 = i: int | -0x8000_0000_0000_0000 <= i < 0x8000_0000_0000_0000

  /** Range of Go's `uint64`, the type `reflect.Value.Uint` widens to. */
  type Uint64 = u: int | 0 <= u < 0x1_0000_0000_0000_0000

  /** A float64 carried as its bit pattern; never computed with. */
  datatype Float64 = Float64(bits: bv64)

  /** A `time.Time` value, carried unchanged; its internals are not modelled. */
  datatype Time = Time(instant: int)

  /** The kind of value a non-nil pointer field points to, with its payload.
      Signed and unsigned integers of every width are held widened to 64
      bits, as `Int()` and `Uint()` return them; `uintptr` is not among the
      unsigned kinds the builder stores and, like complex numbers, is `Other`. `TimeStruct` is a struct of
      the exact type `time.Time`; `OtherStruct` is any other struct; `Other`
      is every remaining kind (slices, maps, nested pointers, interfaces, ...). */
  datatype ValueKind =
    | Int(i: Int64)
    | Uint(u: Uint64)
    | Float(f: Float64)
    | String(s: string)
    | Bool(b: bool)
    | TimeStruct(t: Time)
    | OtherStruct
    | Other

  /** What a field's slot holds: a plain (non-pointer) value, a nil pointer,
      or a pointer to a value. */
  datatype Slot =
    | NonPointer(held: ValueKind)
    | NilPtr
    | Ptr(target: ValueKind)

  /** One struct field: its declared name, whether it is exported (Go's
      `PkgPath == ""`), its slot, and the raw `json` and `admin_only` tag
      values (`""` when a tag is absent). */
  datatype FieldDesc = FieldDesc(
    name: string,
    exported: bool,
    slot: Slot,
    jsonTag: string,
    adminOnlyTag: string)

  /** A value stored in the update map. */
  datatype Value =
    | IntValue(i: Int64)
    | UintValue(u: Uint64)
    | FloatValue(f: Float64)
    | StringValue(s: string)
    | BoolValue(b: bool)
    | TimeValue(t: Time)

  /** The value read from a pointed-to value according to its kind, or
      `None` for the kinds the builder skips. */
  function Extract(k: ValueKind): Option<Value> {
    match k
    case Int(i) => Some(IntValue(i))
    case Uint(u) => Some(UintValue(u))
    case Float(f) => Some(FloatValue(f))
    case String(s) => Some(StringValue(s))
    case Bool(b) => Some(BoolValue(b))
    case TimeStruct(t) => Some(TimeValue(t))
    case OtherStruct => None
    case Other => None
  }

  /** The kind a stored value was read from. */
  function KindOf(v: Value): ValueKind {
    match v
    case IntValue(i) => Int(i)
    case UintValue(u) => Uint(u)
    case FloatValue(f) => Float(f)
    case StringValue(s) => String(s)
    case BoolValue(b) => Bool(b)
    case TimeValue(t) => TimeStruct(t)
  }

  /** Extraction neither coerces nor loses anything: a stored value comes
      from exactly one kind and payload, and every value can be stored. */
  lemma ExtractInvertsKindOf(k: ValueKind, v: Value)
    ensures Extract(KindOf(v)) == Some(v)
    ensures Extract(k) == Some(v) <==> k == KindOf(v)
    ensures Extract(k).None? <==> k == OtherStruct || k == Other
  {
  }

  /** A field is looked at at all only when it is a non-nil pointer, it is
      exported, and its `json` tag is not exactly `-`. */
  predicate Considered(f: FieldDesc) {
    f.slot.Ptr? && f.exported && f.jsonTag != "-"
  }

  /** The name a field goes by before the column rewrite: the first
      comma-separated piece of its `json` tag, or of its declared name when
      the tag is empty. */
  function TagName(f: FieldDesc): (name: string)
    ensures var src := if f.jsonTag == "" then f.name else f.jsonTag;
      && name <= src && ',' !in name
      && (|name| < |src| ==> src[|name|] == ',')
  {
    FirstSegment(if f.jsonTag == "" then f.name else f.jsonTag, ',')
  }

  /** A field without a `json` tag goes by its whole declared name (Go
      identifiers never hold a comma); a comma-free tag is used as it is. */
  lemma TagNameFallsBack(f: FieldDesc)
    ensures f.jsonTag == "" && ',' !in f.name ==> TagName(f) == f.name
    ensures f.jsonTag != "" && ',' !in f.jsonTag ==> TagName(f) == f.jsonTag
  {
  }
}
