/**
 * The schema-driven generators of `schemagen`: random fields, and random values
 * for a field, a key and a value payload. The random engine is replaced by an
 * explicit stream of integer choices: each draw takes the next choice (0 once
 * the stream is exhausted) and maps it onto its range, so every choice stream
 * is a legal run and a generator is a function of its stream. The soundness
 * lemmas say that every run yields a value that fits; the coverage lemmas say
 * that the boundary cases the generators exist for are reachable.
 */
module SchemaGen {
  import opened Wrappers
  import opened SchemaTypes

  /** A drawn value and the choices left after drawing it. */
  datatype Drawn<T> = Drawn(value: T, rest: seq<int>)

  /** The next raw choice. */
  function Next(cs: seq<int>): Drawn<int> {
    if cs == [] then Drawn(0, []) else Drawn(cs[0], cs[1..])
  }

  /** Maps a raw choice onto `[lo, hi]`; a choice already in the range is taken as it is. */
  function InRange(c: int, lo: int, hi: int): (r: int)
    requires lo <= hi
    ensures lo <= r <= hi
    ensures lo <= c <= hi ==> r == c
  {
    lo + (c - lo) % (hi - lo + 1)
  }

  /** `rapid.IntRange(lo, hi)`. */
  function IntRange(cs: seq<int>, lo: int, hi: int): (d: Drawn<int>)
    requires lo <= hi
    ensures lo <= d.value <= hi
  {
    var c := Next(cs);
    Drawn(InRange(c.value, lo, hi), c.rest)
  }

  /** `rapid.Bool()`. */
  function Bool(cs: seq<int>): Drawn<bool> {
    var c := IntRange(cs, 0, 1);
    Drawn(c.value == 1, c.rest)
  }

  /** The length of an unbounded slice or string. */
  function Length(cs: seq<int>): Drawn<nat> {
    var c := Next(cs);
    Drawn(if c.value < 0 then -c.value else c.value, c.rest)
  }

  // ---------------------------------------------------------------- kinds and fields

  /** `kindGen`: a kind strictly between `InvalidKind` and `MAX_VALID_KIND`, each one reachable. */
  function KindGen(c: int): (k: Kind)
    ensures ValidKind(k)
    ensures ValidKind(c as Kind) ==> k == c as Kind
  {
    InRange(c, (InvalidKind + 1) as int, (MaxValidKind - 1) as int) as Kind
  }

  /**
   * The draws `Field` makes, in order: the kind, the name, nullability, then the
   * enum definition or the address prefix. The `Name` and `EnumDefinition`
   * generators are not part of this model, so their results are given.
   */
  datatype FieldDraw = FieldDraw(kindChoice: int, name: string, nullable: bool,
                                 enumDefinition: EnumDefinition, addressPrefix: string)

  /** `Field`: kind-dependent auxiliary data is present exactly for the enum and the address kinds. */
  function FieldGen(d: FieldDraw): (f: Field)
    ensures ValidKind(f.kind) && f.kind == KindGen(d.kindChoice)
    ensures f.name == d.name && f.nullable == d.nullable
    ensures f.enumDefinition.Some? <==> f.kind == EnumKind
    ensures f.enumDefinition.Some? ==> f.enumDefinition.value == d.enumDefinition
    ensures f.addressPrefix.Some? <==> f.kind == Bech32AddressKind
    ensures f.addressPrefix.Some? ==> f.addressPrefix.value == d.addressPrefix
  {
    var kind := KindGen(d.kindChoice);
    Field(d.name, kind, d.nullable,
          if kind == EnumKind then Some(d.enumDefinition) else None,
          if kind == Bech32AddressKind then Some(d.addressPrefix) else None)
  }

  /**
   * The fields `baseFieldValue` can draw for: a kind it handles (any other kind
   * panics) and, for an enum, a non-empty value list (`rapid.IntRange(0, -1)`
   * panics too).
   */
  predicate Generatable(f: Field) {
    ValidKind(f.kind) &&
    (f.kind == EnumKind ==> f.enumDefinition.Some? && |f.enumDefinition.value.values| > 0)
  }

  predicate AllGeneratable(fields: seq<Field>) {
    forall i :: 0 <= i < |fields| ==> Generatable(fields[i])
  }

  // ---------------------------------------------------------------- base values

  /** `n` Unicode scalar values (`rapid.String` draws runes). */
  function Chars(n: nat, cs: seq<int>): (d: Drawn<string>)
    ensures |d.value| == n
  {
    if n == 0 then Drawn([], cs)
    else
      var c := IntRange(cs, 0, 0x10_F7FF);
      var ch := if c.value < 0xD800 then c.value as char else (c.value + 0x800) as char;
      var tail := Chars(n - 1, c.rest);
      Drawn([ch] + tail.value, tail.rest)
  }

  /** `n` bytes. */
  function Bytes(n: nat, cs: seq<int>): (d: Drawn<seq<byte>>)
    ensures |d.value| == n
  {
    if n == 0 then Drawn([], cs)
    else
      var b := IntRange(cs, 0, 255);
      var tail := Bytes(n - 1, b.rest);
      Drawn([b.value as byte] + tail.value, tail.rest)
  }

  /** `n` decimal digits. */
  function Digits(n: nat, cs: seq<int>): (d: Drawn<string>)
    ensures |d.value| == n
    ensures forall i :: 0 <= i < n ==> '0' <= d.value[i] <= '9'
  {
    if n == 0 then Drawn([], cs)
    else
      var c := IntRange(cs, 0, 9);
      var tail := Digits(n - 1, c.rest);
      Drawn([(c.value + '0' as int) as char] + tail.value, tail.rest)
  }

  /** `rapid.StringMatching(IntegerFormat)`. */
  function IntegerString(cs: seq<int>): (d: Drawn<string>)
    ensures IsIntegerString(d.value)
  {
    var neg := Bool(cs);
    var n := Length(neg.rest);
    var digits := Digits(n.value + 1, n.rest);
    assert IsDigits(digits.value);
    if neg.value then
      assert ("-" + digits.value)[1..] == digits.value;
      Drawn("-" + digits.value, digits.rest)
    else Drawn(digits.value, digits.rest)
  }

  /** `rapid.StringMatching(DecimalFormat)`. */
  function DecimalString(cs: seq<int>): (d: Drawn<string>)
    ensures IsDecimalString(d.value)
  {
    var whole := IntegerString(cs);
    var hasFraction := Bool(whole.rest);
    if !hasFraction.value then Drawn(whole.value, hasFraction.rest)
    else
      var n := Length(hasFraction.rest);
      var frac := Digits(n.value + 1, n.rest);
      var s := whole.value + "." + frac.value;
      var i := |whole.value|;
      assert s[..i] == whole.value && s[i] == '.' && s[i + 1..] == frac.value;
      assert IsDigits(frac.value);
      Drawn(s, frac.rest)
  }

  /** The `[lo, hi]` range `rapid` draws from for a fixed-width integer kind. */
  function IntBounds(k: Kind): (r: (int, int))
    requires IsFixedIntKind(k)
    ensures r.0 <= r.1
    ensures forall i :: IntInRange(k, i) <==> r.0 <= i <= r.1
  {
    if k == Int8Kind then (-0x80, 0x7F)
    else if k == Uint8Kind then (0, 0xFF)
    else if k == Int16Kind then (-0x8000, 0x7FFF)
    else if k == Uint16Kind then (0, 0xFFFF)
    else if k == Int32Kind then (-0x8000_0000, 0x7FFF_FFFF)
    else if k == Uint32Kind then (0, 0xFFFF_FFFF)
    else if k == Int64Kind then (Int64Min, Int64Max)
    else (0, 0xFFFF_FFFF_FFFF_FFFF)
  }

  /** `baseFieldValue`: a non-null value of the field's kind. */
  function BaseFieldValue(f: Field, cs: seq<int>): (d: Drawn<Value>)
    requires Generatable(f)
    ensures d.value != NullV && BaseFits(f, d.value)
  {
    var k := f.kind;
    if k == StringKind then
      var n := Length(cs); var s := Chars(n.value, n.rest); Drawn(StrV(s.value), s.rest)
    else if k == BytesKind then
      var n := Length(cs); var b := Bytes(n.value, n.rest); Drawn(BytesV(b.value), b.rest)
    else if IsFixedIntKind(k) then
      var bounds := IntBounds(k);
      var i := IntRange(cs, bounds.0, bounds.1); Drawn(IntV(k, i.value), i.rest)
    else if k == Float32Kind then
      var bits := IntRange(cs, 0, 0xFFFF_FFFF); Drawn(FloatV(k, bits.value), bits.rest)
    else if k == Float64Kind then
      var bits := IntRange(cs, 0, 0xFFFF_FFFF_FFFF_FFFF); Drawn(FloatV(k, bits.value), bits.rest)
    else if k == IntegerKind then
      var s := IntegerString(cs); Drawn(StrV(s.value), s.rest)
    else if k == DecimalKind then
      var s := DecimalString(cs); Drawn(StrV(s.value), s.rest)
    else if k == BoolKind then
      var b := Bool(cs); Drawn(BoolV(b.value), b.rest)
    else if k == TimeKind then
      var i := IntRange(cs, Int64Min, Int64Max); Drawn(TimeV(i.value), i.rest)
    else if k == DurationKind then
      var i := IntRange(cs, Int64Min, Int64Max); Drawn(DurationV(i.value), i.rest)
    else if k == Bech32AddressKind then
      var n := IntRange(cs, 20, 64); var b := Bytes(n.value, n.rest); Drawn(BytesV(b.value), b.rest)
    else
      var values := f.enumDefinition.value.values;
      var i := IntRange(cs, 0, |values| - 1);
      Drawn(StrV(values[i.value]), i.rest)
  }

  /** `FieldValue`: the base value, or for a nullable field either it or null (`rapid.OneOf`). */
  function FieldValue(f: Field, cs: seq<int>): (d: Drawn<Value>)
    requires Generatable(f)
    ensures ValueFits(f, d.value)
    ensures !f.nullable ==> d == BaseFieldValue(f, cs)
    ensures f.nullable ==> d.value == NullV || d == BaseFieldValue(f, Next(cs).rest)
  {
    if f.nullable then
      var pick := IntRange(cs, 0, 1);
      if pick.value == 0 then BaseFieldValue(f, pick.rest) else Drawn(NullV, pick.rest)
    else BaseFieldValue(f, cs)
  }

  // ---------------------------------------------------------------- keys and value payloads

  /** Each value drawn for the field at the same position. */
  predicate TupleFits(fields: seq<Field>, items: seq<Value>) {
    |items| == |fields| && forall i :: 0 <= i < |fields| ==> ValueFits(fields[i], items[i])
  }

  /** A key of the given arity: nil for no key fields, the bare value for one, a tuple otherwise. */
  predicate KeyFits(fields: seq<Field>, v: Value) {
    if |fields| == 0 then v == NullV
    else if |fields| == 1 then ValueFits(fields[0], v)
    else v.TupleV? && TupleFits(fields, v.items)
  }

  /** Some field named `name` accepts `v`. */
  predicate FitsSomeField(fields: seq<Field>, name: string, v: Value) {
    exists j :: 0 <= j < |fields| && fields[j].name == name && ValueFits(fields[j], v)
  }

  /**
   * A value payload: nil for no value fields; otherwise a partial update whose
   * entries each name a value field and fit it, or the full value (bare for one
   * field, a tuple in field order for more).
   */
  predicate ValuePayloadFits(fields: seq<Field>, v: Value) {
    if |fields| == 0 then v == NullV
    else
      || (v.MapV? && forall k :: k in v.updates ==> FitsSomeField(fields, k, v.updates[k]))
      || (|fields| == 1 && ValueFits(fields[0], v))
      || (|fields| > 1 && v.TupleV? && TupleFits(fields, v.items))
  }

  /** One value per field, drawn in field order. */
  function DrawEach(fields: seq<Field>, cs: seq<int>): (d: Drawn<seq<Value>>)
    requires AllGeneratable(fields)
    ensures TupleFits(fields, d.value)
  {
    if fields == [] then Drawn([], cs)
    else
      var v := FieldValue(fields[0], cs);
      var tail := DrawEach(fields[1..], v.rest);
      assert forall i :: 0 < i < |fields| ==> fields[i] == fields[1..][i - 1];
      Drawn([v.value] + tail.value, tail.rest)
  }

  /** `KeyFieldsValue`. */
  function KeyFieldsValue(fields: seq<Field>, cs: seq<int>): (d: Drawn<Value>)
    requires AllGeneratable(fields)
    ensures KeyFits(fields, d.value)
  {
    if |fields| == 0 then Drawn(NullV, cs)
    else if |fields| == 1 then FieldValue(fields[0], cs)
    else
      var t := DrawEach(fields, cs);
      Drawn(TupleV(t.value), t.rest)
  }

  /**
   * The partial-update loop from field `i` on: each field is skipped when its
   * coin says so, and otherwise gets a value of its own under its name.
   */
  function PartialUpdates(fields: seq<Field>, i: nat, acc: map<string, Value>, cs: seq<int>): (d: Drawn<map<string, Value>>)
    requires i <= |fields| && AllGeneratable(fields)
    requires forall k :: k in acc ==> FitsSomeField(fields, k, acc[k])
    ensures forall k :: k in d.value ==> FitsSomeField(fields, k, d.value[k])
    decreases |fields| - i
  {
    if i == |fields| then Drawn(acc, cs)
    else
      var skip := Bool(cs);
      if skip.value then PartialUpdates(fields, i + 1, acc, skip.rest)
      else
        var v := FieldValue(fields[i], skip.rest);
        assert FitsSomeField(fields, fields[i].name, v.value);
        PartialUpdates(fields, i + 1, acc[fields[i].name := v.value], v.rest)
  }

  /** `ValueFieldsValue`. */
  function ValueFieldsValue(fields: seq<Field>, cs: seq<int>): (d: Drawn<Value>)
    requires AllGeneratable(fields)
    ensures ValuePayloadFits(fields, d.value)
  {
    if |fields| == 0 then Drawn(NullV, cs)
    else
      var partial := Bool(cs);
      if partial.value then
        var m := PartialUpdates(fields, 0, map[], partial.rest);
        Drawn(MapV(m.value), m.rest)
      else if |fields| == 1 then FieldValue(fields[0], partial.rest)
      else
        var t := DrawEach(fields, partial.rest);
        Drawn(TupleV(t.value), t.rest)
  }

  // ---------------------------------------------------------------- coverage

  /** A nullable field can be given null. */
  lemma NullableFieldCanBeNull(f: Field)
    requires Generatable(f) && f.nullable
    ensures FieldValue(f, [1]).value == NullV
  {
  }

  /** Every address length from 20 to 64 bytes is drawn by some run. */
  lemma AddressLengthsCovered(f: Field, n: int)
    requires Generatable(f) && f.kind == Bech32AddressKind && 20 <= n <= 64
    ensures BaseFieldValue(f, [n]).value.BytesV? && |BaseFieldValue(f, [n]).value.bytes| == n
  {
  }

  /** Every value of an enum definition is drawn by some run. */
  lemma EnumValuesCovered(f: Field, i: int)
    requires Generatable(f) && f.kind == EnumKind && 0 <= i < |f.enumDefinition.value.values|
    ensures BaseFieldValue(f, [i]).value == StrV(f.enumDefinition.value.values[i])
  {
  }

  /** `n` choices that each say "skip". */
  function Skips(n: nat): (cs: seq<int>)
    ensures |cs| == n && forall i :: 0 <= i < n ==> cs[i] == 1
  {
    if n == 0 then [] else [1] + Skips(n - 1)
  }

  lemma {:induction false} PartialUpdatesAllSkipped(fields: seq<Field>, i: nat, acc: map<string, Value>)
    requires i <= |fields| && AllGeneratable(fields)
    requires forall k :: k in acc ==> FitsSomeField(fields, k, acc[k])
    ensures PartialUpdates(fields, i, acc, Skips(|fields| - i)).value == acc
    decreases |fields| - i
  {
    if i < |fields| {
      var cs := Skips(|fields| - i);
      assert Bool(cs) == Drawn(true, Skips(|fields| - (i + 1)));
      PartialUpdatesAllSkipped(fields, i + 1, acc);
    }
  }

  /** The empty partial update (every field skipped) is reachable whenever there are value fields. */
  lemma EmptyPartialUpdateReachable(fields: seq<Field>)
    requires |fields| > 0 && AllGeneratable(fields)
    ensures ValueFieldsValue(fields, [1] + Skips(|fields|)).value == MapV(map[])
  {
    var cs := [1] + Skips(|fields|);
    assert Bool(cs) == Drawn(true, Skips(|fields|));
    PartialUpdatesAllSkipped(fields, 0, map[]);
  }
}
