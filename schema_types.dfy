/**
 * The schema vocabulary of the indexer: value kinds, fields, enum definitions,
 * object types, module schemas, object updates and the dynamically typed values
 * they carry. The Go source carries values as `any`; here they are a closed
 * variant type, and `ValueFits` says which variants a field accepts.
 */
module SchemaTypes {
  import opened Wrappers

  /** A Go `Kind`: an enumeration constant, kept as its integer ordinal. */
  newtype Kind = int

  const InvalidKind: Kind := 0
  const StringKind: Kind := 1
  const BytesKind: Kind := 2
  const Int8Kind: Kind := 3
  const Uint8Kind: Kind := 4
  const Int16Kind: Kind := 5
  const Uint16Kind: Kind := 6
  const Int32Kind: Kind := 7
  const Uint32Kind: Kind := 8
  const Int64Kind: Kind := 9
  const Uint64Kind: Kind := 10
  const IntegerKind: Kind := 11
  const DecimalKind: Kind := 12
  const BoolKind: Kind := 13
  const TimeKind: Kind := 14
  const DurationKind: Kind := 15
  const Float32Kind: Kind := 16
  const Float64Kind: Kind := 17
  const Bech32AddressKind: Kind := 18
  const EnumKind: Kind := 19
  /** The sentinel one past the last valid kind. */
  const MaxValidKind: Kind := 20

  predicate ValidKind(k: Kind) {
    InvalidKind < k < MaxValidKind
  }

  newtype byte = x: int | 0 <= x < 256

  datatype EnumDefinition = EnumDefinition(name: string, values: seq<string>)

  datatype Field = Field(
    name: string,
    kind: Kind,
    nullable: bool,
    enumDefinition: Option<EnumDefinition>,
    addressPrefix: Option<string>)

  datatype ObjectType = ObjectType(name: string, keyFields: seq<Field>, valueFields: seq<Field>)

  /** A module's schema: its object types, in declaration order. */
  datatype ModuleSchema = ModuleSchema(objectTypes: seq<ObjectType>)

  /**
   * A dynamically typed value. Fixed-width integers and floats remember the kind
   * they were produced for (Go gives each width its own type); floats are kept
   * as their opaque IEEE-754 bit pattern; times and durations as int64 nanoseconds.
   * `TupleV` is a Go `[]any`, `MapV` a `MapValueUpdates` partial update.
   */
  datatype Value =
    | NullV
    | StrV(str: string)
    | BytesV(bytes: seq<byte>)
    | IntV(intKind: Kind, num: int)
    | FloatV(floatKind: Kind, bits: int)
    | BoolV(flag: bool)
    | TimeV(unixNanos: int)
    | DurationV(nanos: int)
    | TupleV(items: seq<Value>)
    | MapV(updates: map<string, Value>)

  datatype ObjectUpdate = ObjectUpdate(typeName: string, key: Value, value: Value, delete: bool)

  const Int64Min: int := -0x8000_0000_0000_0000
  const Int64Max: int := 0x7FFF_FFFF_FFFF_FFFF

  /** Whether `i` is representable in the Go integer type of kind `k`. */
  predicate IntInRange(k: Kind, i: int) {
    if k == Int8Kind then -0x80 <= i < 0x80
    else if k == Uint8Kind then 0 <= i < 0x100
    else if k == Int16Kind then -0x8000 <= i < 0x8000
    else if k == Uint16Kind then 0 <= i < 0x1_0000
    else if k == Int32Kind then -0x8000_0000 <= i < 0x8000_0000
    else if k == Uint32Kind then 0 <= i < 0x1_0000_0000
    else if k == Int64Kind then Int64Min <= i <= Int64Max
    else if k == Uint64Kind then 0 <= i < 0x1_0000_0000_0000_0000
    else false
  }

  predicate IsFixedIntKind(k: Kind) {
    Int8Kind <= k <= Uint64Kind
  }

  predicate IsDigits(s: string) {
    |s| > 0 && forall i :: 0 <= i < |s| ==> '0' <= s[i] <= '9'
  }

  /** The integer grammar: an optional minus sign followed by one or more digits. */
  predicate IsIntegerString(s: string) {
    IsDigits(s) || (|s| >= 2 && s[0] == '-' && IsDigits(s[1..]))
  }

  /** The decimal grammar: an integer, optionally followed by one '.' and one or more digits. */
  predicate IsDecimalString(s: string) {
    IsIntegerString(s) ||
    exists i :: 0 < i < |s| && s[i] == '.' && IsIntegerString(s[..i]) && IsDigits(s[i + 1..])
  }

  /** The non-null values a field of kind `f.kind` accepts. */
  predicate BaseFits(f: Field, v: Value) {
    var k := f.kind;
    if k == StringKind then v.StrV?
    else if k == BytesKind then v.BytesV?
    else if IsFixedIntKind(k) then v.IntV? && v.intKind == k && IntInRange(k, v.num)
    else if k == Float32Kind then v.FloatV? && v.floatKind == k && 0 <= v.bits < 0x1_0000_0000
    else if k == Float64Kind then v.FloatV? && v.floatKind == k && 0 <= v.bits < 0x1_0000_0000_0000_0000
    else if k == IntegerKind then v.StrV? && IsIntegerString(v.str)
    else if k == DecimalKind then v.StrV? && IsDecimalString(v.str)
    else if k == BoolKind then v.BoolV?
    else if k == TimeKind then v.TimeV? && Int64Min <= v.unixNanos <= Int64Max
    else if k == DurationKind then v.DurationV? && Int64Min <= v.nanos <= Int64Max
    else if k == Bech32AddressKind then v.BytesV? && 20 <= |v.bytes| <= 64
    else if k == EnumKind then
      v.StrV? && f.enumDefinition.Some? && v.str in f.enumDefinition.value.values
    else false
  }

  /** A field's value domain: its kind's domain, widened with null when the field is nullable. */
  predicate ValueFits(f: Field, v: Value) {
    if v.NullV? then f.nullable else BaseFits(f, v)
  }
}
