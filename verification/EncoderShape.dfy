/** The JSON that the encoder writes, described by the schema alone. */
module EncoderShape {
  import opened Common
  import opened Traversal
  import opened Dom
  import opened Protobuf
  import opened Encoder
  import opened BigStep

  // A value that a field of that kind is written as. Unless `strict`, an Any may also be an
  // empty object, which is what an unresolved one is written as.
  ghost predicate Fits(pool: Pool, strict: bool, kind: Kind, v: Value)
    decreases v
  {
    match kind
    case KDouble => IsDouble(v)
    case KFloat => IsDouble(v)
    case KInt32 => IsInt(v)
    case KUint32 => IsUint(v)
    case KInt64 => IsInt64(v)
    case KUint64 => IsUint64(v)
    case KBool => v.True? || v.False?
    case KString => v.Str? && '\0' !in v.str
    case KBytes => false
    case KEnum => IsUint(v)
    case KMessage(typ) => v.Obj? && FitsObject(pool, strict, if typ == NAME_ANY then None else Some(typ), v.members)
  }

  // An object whose first member names its message type, the expected one if any, and whose
  // other members, all of different names, are fields of that type.
  ghost predicate FitsObject(pool: Pool, strict: bool, expected: Option<string>, members: seq<Member>)
    decreases members
  {
    || (members == [] && expected.None? && !strict)
    || (members != []
        && members[0].name == "@type" && members[0].value.Str?
        && var typ := members[0].value.str;
        && typ in pool.types
        && (expected.Some? ==> typ == expected.value)
        && DistinctNames(members)
        && forall k :: 1 <= k < |members| ==> FitsMember(pool, strict, pool.types[typ], members[k]))
  }

  ghost predicate FitsMember(pool: Pool, strict: bool, fields: seq<Field>, m: Member)
    decreases m
  {
    var i := FindField(fields, m.name);
    && i < |fields|
    && if fields[i].repeated
       then m.value.Arr?
            && forall j :: 0 <= j < |m.value.items| ==> Fits(pool, strict, fields[i].kind, m.value.items[j])
       else Fits(pool, strict, fields[i].kind, m.value)
  }

  // ----- Every Any resolves -----

  ghost predicate Resolvable(m: Msg)
    decreases m
  {
    match m
    case Plain(_, slots) => forall i :: 0 <= i < |slots| ==> ResolvableSlot(slots[i])
    case AnyOf(content) => Resolvable(content)
    case AnyRaw(_) => false
  }

  ghost predicate ResolvableSlot(slot: Slot)
    decreases slot
  {
    forall j :: 0 <= j < |slot.vals| ==> ResolvableVal(slot.vals[j])
  }

  ghost predicate ResolvableVal(v: Val)
    decreases v
  {
    v.VMsg? ==> Resolvable(v.m)
  }

  // ----- The encoder's output fits -----

  // The type that the object written for a message names.
  function Expected(m: Msg): Option<string> {
    if m.Plain? then Some(m.typ) else None
  }

  lemma {:induction false} ValFits(pool: Pool, strict: bool, fd: Field, v: Val)
    requires ValidPool(pool) && ValConforms(pool, fd, v) && (strict ==> ResolvableVal(v))
    ensures forall item :: item in EncodeItem(pool, v) ==> Fits(pool, strict, fd.kind, item)
    ensures !v.VBytes? ==> |EncodeItem(pool, v)| == 1
    decreases v, 1
  {
    match v
    case VMsg(m) => MessageFits(pool, strict, m);
    case VString(s) => CStrHasNoNul(s);
    case _ =>
  }

  lemma {:induction false} ValsFit(pool: Pool, strict: bool, fd: Field, vals: seq<Val>)
    requires ValidPool(pool)
    requires forall j :: 0 <= j < |vals| ==> ValConforms(pool, fd, vals[j]) && (strict ==> ResolvableVal(vals[j]))
    ensures forall j :: 0 <= j < |EncodeItems(pool, vals)| ==> Fits(pool, strict, fd.kind, EncodeItems(pool, vals)[j])
    decreases vals, 0
  {
    if vals != [] {
      ValFits(pool, strict, fd, vals[0]);
      ValsFit(pool, strict, fd, vals[1..]);
      var first, rest := EncodeItem(pool, vals[0]), EncodeItems(pool, vals[1..]);
      forall j | 0 <= j < |first + rest| ensures Fits(pool, strict, fd.kind, (first + rest)[j]) {
        if j < |first| {
          assert first[j] in first;
        }
      }
    }
  }

  lemma {:induction false} SlotFits(pool: Pool, strict: bool, fields: seq<Field>, i: nat, slot: Slot)
    requires ValidPool(pool) && ValidFields(fields) && i < |fields|
    requires SlotConforms(pool, fields[i], slot) && (strict ==> ResolvableSlot(slot))
    ensures |EncodeSlot(pool, fields[i], slot)| <= 1
    ensures forall m :: m in EncodeSlot(pool, fields[i], slot) ==>
      m.name == fields[i].name && FitsMember(pool, strict, fields, m)
    decreases slot, 1
  {
    assert FindField(fields, fields[i].name) == i;
    ValsFit(pool, strict, fields[i], slot.vals);
    if slot.vals != [] && !fields[i].repeated {
      ValFits(pool, strict, fields[i], slot.vals[0]);
      var item := EncodeItem(pool, slot.vals[0]);
      if item != [] {
        assert item[0] in item;
      }
    }
  }

  // A field's member in front of the members of later fields.
  lemma {:induction false} FieldInFront(
      pool: Pool, strict: bool, fields: seq<Field>, i: nat, first: seq<Member>, rest: seq<Member>)
    requires ValidFields(fields) && i < |fields| && |first| <= 1 && DistinctNames(rest)
    requires forall m :: m in first ==> m.name == fields[i].name && FitsMember(pool, strict, fields, m)
    requires forall k :: 0 <= k < |rest| ==>
      FitsMember(pool, strict, fields, rest[k]) && FindField(fields, rest[k].name) > i
    ensures DistinctNames(first + rest)
    ensures forall k :: 0 <= k < |first + rest| ==>
      FitsMember(pool, strict, fields, (first + rest)[k]) && FindField(fields, (first + rest)[k].name) >= i
  {
    assert FindField(fields, fields[i].name) == i;
    assert first != [] ==> first[0] in first;
  }

  lemma {:induction false} SlotsFit(pool: Pool, strict: bool, fields: seq<Field>, i: nat, slots: seq<Slot>)
    requires ValidPool(pool) && ValidFields(fields) && i + |slots| == |fields|
    requires forall k :: 0 <= k < |slots| ==>
      SlotConforms(pool, fields[i + k], slots[k]) && (strict ==> ResolvableSlot(slots[k]))
    ensures
      var members := EncodeSlots(pool, fields[i..], slots);
      && DistinctNames(members)
      && forall k :: 0 <= k < |members| ==>
           FitsMember(pool, strict, fields, members[k]) && FindField(fields, members[k].name) >= i
    decreases slots, 0
  {
    if slots != [] {
      assert fields[i..][0] == fields[i] && fields[i..][1..] == fields[i + 1..];
      assert SlotConforms(pool, fields[i + 0], slots[0]) && (strict ==> ResolvableSlot(slots[0]));
      SlotFits(pool, strict, fields, i, slots[0]);
      forall k | 0 <= k < |slots[1..]|
        ensures SlotConforms(pool, fields[i + 1 + k], slots[1..][k]) && (strict ==> ResolvableSlot(slots[1..][k]))
      {
        assert SlotConforms(pool, fields[i + (k + 1)], slots[k + 1]);
      }
      SlotsFit(pool, strict, fields, i + 1, slots[1..]);
      var first, rest := EncodeSlot(pool, fields[i], slots[0]), EncodeSlots(pool, fields[i + 1..], slots[1..]);
      FieldInFront(pool, strict, fields, i, first, rest);
    }
  }

  /** Encoder well-formedness: whatever the message, every object in the written JSON, at every
      depth, starts with a known type, the one its field declares if it declares one, has names that
      differ pairwise, all of them fields of that type, and holds arrays only as values of repeated
      fields. When every Any resolves this has no exception; otherwise an unresolved Any is the
      empty object. Which message each object stands for is ObjectsStandFor, below. */
  lemma {:induction false} MessageFits(pool: Pool, strict: bool, m: Msg)
    requires ValidPool(pool) && Conforms(pool, m) && (strict ==> Resolvable(m))
    ensures EncodeInto(pool, Obj([]), m).0.Obj?
    ensures FitsObject(pool, strict, Expected(m), EncodeInto(pool, Obj([]), m).0.members)
    decreases m, 0
  {
    match m
    case AnyOf(content) =>
      MessageFits(pool, strict, content);
    case AnyRaw(_) =>
    case Plain(typ, slots) =>
      var fields := pool.types[typ];
      assert fields[0..] == fields;
      SlotsFit(pool, strict, fields, 0, slots);
      TaggedFits(pool, strict, typ, EncodeSlots(pool, fields, slots));
  }

  lemma {:induction false} TaggedFits(pool: Pool, strict: bool, typ: string, rest: seq<Member>)
    requires ValidPool(pool) && typ in pool.types && DistinctNames(rest)
    requires forall k :: 0 <= k < |rest| ==> FitsMember(pool, strict, pool.types[typ], rest[k])
    ensures FitsObject(pool, strict, Some(typ), [Member("@type", Str(typ))] + rest)
  {
    var all := [Member("@type", Str(typ))] + rest;
    forall k | 1 <= k < |all|
      ensures all[k] == rest[k - 1] && all[k].name != "@type" && FitsMember(pool, strict, pool.types[typ], all[k])
    {
      assert FitsMember(pool, strict, pool.types[typ], rest[k - 1]);
      assert IsIdentifier(rest[k - 1].name);
    }
  }

  // ----- Which message each object stands for -----

  // The object names the type of the message, or of the message inside any chain of Any, and then
  // its fields in the order of the schema; what stands under their names stands, field by field
  // and element by element, for their values. An unresolved Any is the empty object.
  ghost predicate StandsFor(pool: Pool, m: Msg, v: Value)
    decreases m
  {
    match m
    case AnyOf(content) => StandsFor(pool, content, v)
    case AnyRaw(_) => v == Obj([])
    case Plain(typ, slots) =>
      && v.Obj? && v.members != [] && v.members[0] == Member("@type", Str(typ))
      && typ in pool.types && |pool.types[typ]| == |slots|
      && InSchemaOrder(pool.types[typ], v.members[1..])
      && forall i :: 0 <= i < |slots| ==>
           SlotStandsFor(pool, pool.types[typ][i], slots[i], Lookup(v.members, pool.types[typ][i].name))
  }

  // Members that are fields, in the order of the fields.
  ghost predicate InSchemaOrder(fields: seq<Field>, members: seq<Member>) {
    && (forall k :: 0 <= k < |members| ==> FindField(fields, members[k].name) < |fields|)
    && forall j, k :: 0 <= j < k < |members| ==> FindField(fields, members[j].name) < FindField(fields, members[k].name)
  }

  // Bytes are not written: their array stays empty.
  ghost predicate SlotStandsFor(pool: Pool, fd: Field, slot: Slot, written: Option<Value>)
    decreases slot
  {
    if slot.vals == [] then written == None
    else if fd.kind.KBytes? then written == if fd.repeated then Some(Arr([])) else None
    else
      written.Some? &&
      if fd.repeated
      then written.value.Arr? && |written.value.items| == |slot.vals|
           && forall j :: 0 <= j < |slot.vals| ==> ValStandsFor(pool, slot.vals[j], written.value.items[j])
      else ValStandsFor(pool, slot.vals[0], written.value)
  }

  // A string is written up to its first NUL, a float as the double it widens to, and an enum value
  // as the unsigned number of the same 32 bits.
  ghost predicate ValStandsFor(pool: Pool, val: Val, v: Value)
    decreases val
  {
    match val
    case VDouble(d) => v == Num(Double(d))
    case VFloat(f) => v == Num(Double(pool.widen(f)))
    case VInt32(i) => v == Num(Integer(i))
    case VUint32(i) => v == Num(Integer(i))
    case VInt64(i) => v == Num(Integer(i))
    case VUint64(i) => v == Num(Integer(i))
    case VBool(b) => v == if b then True else False
    case VString(s) => v.Str? && UpToNul(s, v.str)
    case VBytes(_) => false
    case VEnum(i) => v == Num(Integer(if i < 0 then i + 4294967296 else i))
    case VMsg(m) => StandsFor(pool, m, v)
  }

  predicate UpToNul(s: string, r: string) {
    r <= s && '\0' !in r && (r == s || s[|r|] == '\0')
  }

  lemma {:induction false} CStrUpToNul(s: string)
    ensures UpToNul(s, CStr(s))
  {
    if s != [] && s[0] != '\0' {
      CStrUpToNul(s[1..]);
    }
  }

  lemma {:induction false} NotWritten(pool: Pool, fields: seq<Field>, slots: seq<Slot>, name: string)
    requires |fields| == |slots| && forall k :: 0 <= k < |fields| ==> fields[k].name != name
    ensures forall k :: 0 <= k < |EncodeSlots(pool, fields, slots)| ==> EncodeSlots(pool, fields, slots)[k].name != name
    decreases |slots|
  {
    if slots != [] {
      NotWritten(pool, fields[1..], slots[1..], name);
    }
  }

  lemma {:induction false} LookupBehind(first: seq<Member>, rest: seq<Member>, name: string)
    requires |first| <= 1 && forall k :: 0 <= k < |first| ==> first[k].name != name
    ensures Lookup(first + rest, name) == Lookup(rest, name)
  {
    assert first == [] ==> first + rest == rest;
    assert first != [] ==> (first + rest)[1..] == rest;
  }

  lemma {:induction false} LookupAhead(first: seq<Member>, rest: seq<Member>, name: string)
    requires |first| <= 1 && (forall k :: 0 <= k < |first| ==> first[k].name == name)
    requires forall k :: 0 <= k < |rest| ==> rest[k].name != name
    ensures Lookup(first + rest, name) == if first == [] then None else Some(first[0].value)
  {
    if first == [] {
      assert first + rest == rest;
    } else {
      assert (first + rest)[0].name == name;
    }
  }

  lemma {:induction false} WrittenAsNamed(pool: Pool, fd: Field, slot: Slot)
    ensures |EncodeSlot(pool, fd, slot)| <= 1
    ensures forall k :: 0 <= k < |EncodeSlot(pool, fd, slot)| ==> EncodeSlot(pool, fd, slot)[k].name == fd.name
  {
  }

  // The encoding of a field is found under its name.
  lemma {:induction false} WrittenUnderName(pool: Pool, fields: seq<Field>, slots: seq<Slot>, i: nat)
    requires i < |fields| == |slots| && ValidFields(fields)
    ensures
      var own := EncodeSlot(pool, fields[i], slots[i]);
      Lookup(EncodeSlots(pool, fields, slots), fields[i].name) == if own == [] then None else Some(own[0].value)
    decreases |slots|
  {
    var first, rest := EncodeSlot(pool, fields[0], slots[0]), EncodeSlots(pool, fields[1..], slots[1..]);
    WrittenAsNamed(pool, fields[0], slots[0]);
    if i == 0 {
      NotWritten(pool, fields[1..], slots[1..], fields[0].name);
      LookupAhead(first, rest, fields[0].name);
    } else {
      WrittenUnderName(pool, fields[1..], slots[1..], i - 1);
      LookupBehind(first, rest, fields[i].name);
    }
  }

  lemma {:induction false} ItemsStandFor(pool: Pool, fd: Field, vals: seq<Val>)
    requires ValidPool(pool)
    requires forall j :: 0 <= j < |vals| ==> ValConforms(pool, fd, vals[j])
    ensures
      var items := EncodeItems(pool, vals);
      if fd.kind.KBytes? then items == []
      else |items| == |vals| && forall j :: 0 <= j < |vals| ==> ValStandsFor(pool, vals[j], items[j])
    decreases vals, 0
  {
    if vals != [] {
      ValueStandsFor(pool, fd, vals[0]);
      ItemsStandFor(pool, fd, vals[1..]);
      if !fd.kind.KBytes? {
        assert forall j :: 0 < j < |vals| ==>
          vals[j] == vals[1..][j - 1] && EncodeItems(pool, vals)[j] == EncodeItems(pool, vals[1..])[j - 1];
      }
    }
  }

  lemma {:induction false} ValueStandsFor(pool: Pool, fd: Field, val: Val)
    requires ValidPool(pool) && ValConforms(pool, fd, val)
    ensures
      var item := EncodeItem(pool, val);
      if fd.kind.KBytes? then item == [] else |item| == 1 && ValStandsFor(pool, val, item[0])
    decreases val, 1
  {
    match val
    case VMsg(m) => ObjectsStandFor(pool, m);
    case VString(s) => CStrUpToNul(s);
    case _ =>
  }

  lemma {:induction false} FieldStandsFor(pool: Pool, fields: seq<Field>, slots: seq<Slot>, i: nat)
    requires ValidPool(pool) && ValidFields(fields) && i < |fields| == |slots|
    requires SlotConforms(pool, fields[i], slots[i])
    ensures SlotStandsFor(pool, fields[i], slots[i], Lookup(EncodeSlots(pool, fields, slots), fields[i].name))
    decreases slots, 0
  {
    SlotIsWritten(pool, fields[i], slots[i]);
    WrittenUnderName(pool, fields, slots, i);
  }

  lemma {:induction false} SlotIsWritten(pool: Pool, fd: Field, slot: Slot)
    requires ValidPool(pool) && SlotConforms(pool, fd, slot)
    ensures
      var own := EncodeSlot(pool, fd, slot);
      SlotStandsFor(pool, fd, slot, if own == [] then None else Some(own[0].value))
    decreases slot, 1
  {
    if slot.vals != [] {
      assert ValConforms(pool, fd, slot.vals[0]);
      if fd.repeated {
        ItemsStandFor(pool, fd, slot.vals);
      } else {
        ValueStandsFor(pool, fd, slot.vals[0]);
      }
    }
  }

  ghost predicate OrderedFrom(fields: seq<Field>, i: nat, members: seq<Member>) {
    InSchemaOrder(fields, members) && forall k :: 0 <= k < |members| ==> FindField(fields, members[k].name) >= i
  }

  lemma {:induction false} OrderedInFront(fields: seq<Field>, i: nat, first: seq<Member>, rest: seq<Member>)
    requires ValidFields(fields) && i < |fields| && |first| <= 1 && OrderedFrom(fields, i + 1, rest)
    requires forall k :: 0 <= k < |first| ==> first[k].name == fields[i].name
    ensures OrderedFrom(fields, i, first + rest)
  {
    assert FindField(fields, fields[i].name) == i;
  }

  lemma {:induction false} WrittenInOrder(pool: Pool, fields: seq<Field>, i: nat, slots: seq<Slot>)
    requires ValidFields(fields) && i + |slots| == |fields|
    ensures OrderedFrom(fields, i, EncodeSlots(pool, fields[i..], slots))
    decreases |slots|
  {
    if slots != [] {
      assert fields[i..][0] == fields[i] && fields[i..][1..] == fields[i + 1..];
      WrittenAsNamed(pool, fields[i], slots[0]);
      WrittenInOrder(pool, fields, i + 1, slots[1..]);
      OrderedInFront(fields, i, EncodeSlot(pool, fields[i], slots[0]), EncodeSlots(pool, fields[i + 1..], slots[1..]));
    }
  }

  /** The written JSON stands for the message, at every depth, inside every Any included: each object
      names its message's type, and under the name of each field stands its value, or element by
      element its values, or nothing when the field is not set. */
  lemma {:induction false} ObjectsStandFor(pool: Pool, m: Msg)
    requires ValidPool(pool) && Conforms(pool, m)
    ensures StandsFor(pool, m, EncodeInto(pool, Obj([]), m).0)
    decreases m, 0
  {
    match m
    case AnyOf(content) => ObjectsStandFor(pool, content);
    case AnyRaw(_) =>
    case Plain(typ, slots) =>
      var fields := pool.types[typ];
      var rest := EncodeSlots(pool, fields, slots);
      var all := [Member("@type", Str(typ))] + rest;
      assert fields[0..] == fields && all[1..] == rest;
      WrittenInOrder(pool, fields, 0, slots);
      forall i | 0 <= i < |slots| ensures SlotStandsFor(pool, fields[i], slots[i], Lookup(all, fields[i].name)) {
        assert SlotConforms(pool, fields[i], slots[i]);
        FieldStandsFor(pool, fields, slots, i);
        assert fields[i].name[0] != '@';
        LookupBehind([Member("@type", Str(typ))], rest, fields[i].name);
      }
  }

  // ----- JSON that fits is regular -----

  lemma {:induction false} FitsIsRegular(pool: Pool, strict: bool, kind: Kind, v: Value)
    requires ValidPool(pool) && Fits(pool, strict, kind, v)
    ensures !v.Arr? && Regular(v)
    decreases v, 1
  {
    if kind.KMessage? {
      FitsObjectIsRegular(pool, strict, if kind.typ == NAME_ANY then None else Some(kind.typ), v.members);
    }
  }

  lemma {:induction false} FitsObjectIsRegular(pool: Pool, strict: bool, expected: Option<string>, members: seq<Member>)
    requires ValidPool(pool) && FitsObject(pool, strict, expected, members)
    ensures RegularMembers(members)
    decreases members, 0
  {
    forall k | 0 <= k < |members| ensures RegularMember(members[k]) {
      if k > 0 {
        FitsMemberIsRegular(pool, strict, pool.types[members[0].value.str], members[k]);
      }
    }
  }

  lemma {:induction false} FitsMemberIsRegular(pool: Pool, strict: bool, fields: seq<Field>, m: Member)
    requires ValidPool(pool) && ValidFields(fields) && FitsMember(pool, strict, fields, m)
    ensures RegularMember(m)
    decreases m, 0
  {
    var i := FindField(fields, m.name);
    CStrIdentity(m.name);
    if fields[i].repeated {
      var items := m.value.items;
      forall j | 0 <= j < |items| ensures !items[j].Arr? && Regular(items[j]) {
        FitsIsRegular(pool, strict, fields[i].kind, items[j]);
      }
    } else {
      FitsIsRegular(pool, strict, fields[i].kind, m.value);
    }
  }

  lemma {:induction false} EncodedIsRegular(pool: Pool, m: Msg)
    requires ValidPool(pool) && Conforms(pool, m)
    ensures EncodeInto(pool, Obj([]), m).0.Obj? && RegularMembers(EncodeInto(pool, Obj([]), m).0.members)
  {
    MessageFits(pool, false, m);
    FitsObjectIsRegular(pool, false, Expected(m), EncodeInto(pool, Obj([]), m).0.members);
  }
}
