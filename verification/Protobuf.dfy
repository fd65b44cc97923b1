/** Message types, messages and the strings that pass between them as C strings. */
module Protobuf {
  import opened Common
  import opened Traversal
  import opened Dom

  const NAME_ANY := "google.protobuf.Any"

  datatype Kind =
    | KDouble | KFloat | KInt32 | KUint32 | KInt64 | KUint64
    | KBool | KString | KBytes | KEnum
    | KMessage(typ: string)

  // A field without explicit presence counts as unset while it holds its default.
  datatype Field = Field(name: string, kind: Kind, repeated: bool, explicitPresence: bool)

  // The linked-in message types, each with its fields in field-number order, and the
  // conversions between float and double, of which only what is stated is used.
  datatype Pool = Pool(types: map<string, seq<Field>>, widen: Float32 -> Float64, narrow: Float64 -> Float32)

  // One slot per declared field: empty when unset, one value when singular and set.
  // An Any holds a message of a linked-in type, or something that does not resolve to one.
  datatype Msg =
    | Plain(typ: string, slots: seq<Slot>)
    | AnyOf(content: Msg)
    | AnyRaw(tag: string)

  datatype Slot = Slot(vals: seq<Val>)

  datatype Val =
    | VDouble(d: Float64)
    | VFloat(f: Float32)
    | VInt32(i: int)
    | VUint32(i: int)
    | VInt64(i: int)
    | VUint64(i: int)
    | VBool(b: bool)
    | VString(s: string)
    | VBytes(s: string)
    | VEnum(i: int)
    | VMsg(m: Msg)

  // What a `const char *` made from a string denotes.
  function CStr(s: string): string {
    if s == [] || s[0] == '\0' then [] else [s[0]] + CStr(s[1..])
  }

  lemma {:induction false} CStrIdentity(s: string)
    ensures CStr(s) == s <==> '\0' !in s
  {
    if s != [] && s[0] != '\0' {
      CStrIdentity(s[1..]);
      assert s == [s[0]] + s[1..];
    }
  }

  lemma {:induction false} CStrIdempotent(s: string)
    ensures '\0' !in CStr(s)
    ensures CStr(CStr(s)) == CStr(s)
  {
    CStrHasNoNul(s);
    CStrIdentity(CStr(s));
  }

  lemma {:induction false} CStrHasNoNul(s: string)
    ensures '\0' !in CStr(s)
  {
    if s != [] && s[0] != '\0' {
      CStrHasNoNul(s[1..]);
    }
  }

  predicate IsAtName(key: string) {
    key != [] && key[0] == '@'
  }

  // Protobuf identifiers hold letters, digits and underscores only; this is what is used of that.
  predicate IsIdentifier(name: string) {
    name != [] && name[0] != '@' && '\0' !in name
  }

  ghost predicate ValidFields(fields: seq<Field>) {
    && (forall i :: 0 <= i < |fields| ==> IsIdentifier(fields[i].name))
    && (forall i, j :: 0 <= i < j < |fields| ==> fields[i].name != fields[j].name)
  }

  ghost predicate ValidPool(pool: Pool) {
    && NAME_ANY !in pool.types
    && forall t :: t in pool.types ==> '\0' !in t && ValidFields(pool.types[t])
  }

  predicate Resolves(pool: Pool, typ: string) {
    typ in pool.types || typ == NAME_ANY
  }

  function TypeName(m: Msg): string {
    match m
    case Plain(typ, _) => typ
    case _ => NAME_ANY
  }

  function FindField(fields: seq<Field>, name: string): (i: nat)
    ensures i <= |fields|
    ensures i < |fields| ==> fields[i].name == name
    ensures forall j :: 0 <= j < i ==> fields[j].name != name
  {
    First(fields, (f: Field) => f.name == name)
  }

  // A new message, all fields unset.
  function New(pool: Pool, typ: string): Msg
    requires Resolves(pool, typ)
  {
    if typ == NAME_ANY then AnyRaw("") else Plain(typ, seq(|pool.types[typ]|, _ => Slot([])))
  }

  predicate IsDefault(v: Val) {
    match v
    case VDouble(d) => d == 0
    case VFloat(f) => f == 0
    case VInt32(i) => i == 0
    case VUint32(i) => i == 0
    case VInt64(i) => i == 0
    case VUint64(i) => i == 0
    case VBool(b) => !b
    case VString(s) => s == []
    case VBytes(s) => s == []
    case VEnum(i) => i == 0
    case VMsg(_) => false
  }

  // Reflection's AddX on a repeated field, SetX on a singular one.
  function Store(fd: Field, slot: Slot, v: Val): Slot {
    if fd.repeated then Slot(slot.vals + [v])
    else if !fd.explicitPresence && IsDefault(v) then Slot([])
    else Slot([v])
  }

  function KindOf(v: Val): Kind {
    match v
    case VDouble(_) => KDouble
    case VFloat(_) => KFloat
    case VInt32(_) => KInt32
    case VUint32(_) => KUint32
    case VInt64(_) => KInt64
    case VUint64(_) => KUint64
    case VBool(_) => KBool
    case VString(_) => KString
    case VBytes(_) => KBytes
    case VEnum(_) => KEnum
    case VMsg(m) => KMessage(TypeName(m))
  }

  // Least and greatest integer of a value's C++ type.
  function Bounds(v: Val): (int, int) {
    match v
    case VUint32(_) => (0, UINT32_MAX)
    case VInt64(_) => (INT64_MIN, INT64_MAX)
    case VUint64(_) => (0, UINT64_MAX)
    case _ => (INT32_MIN, INT32_MAX)
  }

  predicate InRange(v: Val) {
    v.VInt32? || v.VUint32? || v.VInt64? || v.VUint64? || v.VEnum? ==> Bounds(v).0 <= v.i <= Bounds(v).1
  }

  /** A message that the generated classes of the pool can hold. */
  ghost predicate Conforms(pool: Pool, m: Msg)
    decreases m
  {
    match m
    case Plain(typ, slots) =>
      && typ in pool.types
      && |slots| == |pool.types[typ]|
      && forall i :: 0 <= i < |slots| ==> SlotConforms(pool, pool.types[typ][i], slots[i])
    case AnyOf(content) => Conforms(pool, content)
    case AnyRaw(_) => true
  }

  ghost predicate SlotConforms(pool: Pool, fd: Field, slot: Slot)
    decreases slot
  {
    && (!fd.repeated ==> |slot.vals| <= 1)
    && forall j :: 0 <= j < |slot.vals| ==> ValConforms(pool, fd, slot.vals[j])
  }

  ghost predicate ValConforms(pool: Pool, fd: Field, v: Val)
    decreases v
  {
    && KindOf(v) == fd.kind
    && InRange(v)
    && (!fd.repeated && !fd.explicitPresence ==> !IsDefault(v))
    && (v.VMsg? ==> Conforms(pool, v.m))
  }
}
