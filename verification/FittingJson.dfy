/** What a document that fits the schema means, and that every such document decodes to it. */
module FittingJson {
  import opened Common
  import opened Traversal
  import opened Dom
  import opened Protobuf
  import opened Decoder
  import opened BigStep
  import opened EncoderShape
  import opened RoundTrip

  // ----- Documents that fit -----

  // A value that a field of that kind takes: null and numbers of another type are skipped, but
  // taken; strings may hold a NUL.
  ghost predicate Readable(pool: Pool, kind: Kind, v: Value)
    decreases v
  {
    || v.Null?
    || match kind
       case KBool => v.True? || v.False?
       case KString => v.Str?
       case KBytes => v.Str?
       case KMessage(typ) => v.Obj? && ReadableObject(pool, if typ == NAME_ANY then None else Some(typ), v.members)
       case _ => v.Num?
  }

  // An object whose first member names its message type, the expected one if any, and whose other
  // members, all of different names, are fields of that type, null, or objects under other names.
  ghost predicate ReadableObject(pool: Pool, expected: Option<string>, members: seq<Member>)
    decreases members
  {
    && members != [] && IsAtName(members[0].name) && members[0].value.Str?
    && var typ := members[0].value.str;
    && typ in pool.types && (expected.Some? ==> typ == expected.value)
    && DistinctNames(members)
    && forall k :: 1 <= k < |members| ==> ReadableMember(pool, pool.types[typ], members[k])
  }

  // A repeated field may be given one value and a singular one an array.
  ghost predicate ReadableMember(pool: Pool, fields: seq<Field>, m: Member)
    decreases m, 1
  {
    || m.value.Null?
    || (var i := FindField(fields, m.name);
        && i < |fields|
        && if m.value.Arr?
           then forall j :: 0 <= j < |m.value.items| ==> Readable(pool, fields[i].kind, m.value.items[j])
           else Readable(pool, fields[i].kind, m.value))
    || Dropped(pool, fields, m)
  }

  // An object under a name that is no field is read, and then dropped.
  ghost predicate Dropped(pool: Pool, fields: seq<Field>, m: Member)
    decreases m, 0
  {
    && FindField(fields, m.name) == |fields| && !IsAtName(m.name) && '\0' !in m.name
    && m.value.Obj? && ReadableObject(pool, None, m.value.members)
  }

  // ----- The meaning of a document, field by field -----

  // An integer as a value of that kind, if it is in the kind's range.
  function IntegerVal(kind: Kind, i: int): Option<Val> {
    match kind
    case KInt32 => if -2147483648 <= i < 2147483648 then Some(VInt32(i)) else None
    case KUint32 => if 0 <= i < 4294967296 then Some(VUint32(i)) else None
    case KInt64 => if -9223372036854775808 <= i < 9223372036854775808 then Some(VInt64(i)) else None
    case KUint64 => if 0 <= i < 18446744073709551616 then Some(VUint64(i)) else None
    case _ => None
  }

  // The value that a field of that kind is given, if any: only a number that is one of the field's
  // type is kept.
  function ReadVal(pool: Pool, kind: Kind, v: Value): Option<Val>
    decreases v, 0
  {
    match v
    case Str(s) => Some(if kind == KBytes then VBytes(CStr(s)) else VString(CStr(s)))
    case True => Some(VBool(true))
    case False => Some(VBool(false))
    case Num(Double(d)) =>
      if kind == KDouble then Some(VDouble(d))
      else if kind == KFloat then Some(VFloat(pool.narrow(d)))
      else None
    case Num(Integer(i)) => IntegerVal(kind, i)
    case Obj(members) =>
      var m := ReadObject(pool, members);
      Some(VMsg(if kind == KMessage(NAME_ANY) then AnyOf(m) else m))
    case _ => None
  }

  function Listed(val: Option<Val>): seq<Val> {
    if val.None? then [] else [val.value]
  }

  function ReadItems(pool: Pool, kind: Kind, items: seq<Value>): seq<Val>
    decreases items
  {
    if items == [] then [] else Listed(ReadVal(pool, kind, items[0])) + ReadItems(pool, kind, items[1..])
  }

  // A field given some values: a repeated one appends them all, a singular one holds the last, and
  // counts as unset if that is its default and it has no explicit presence.
  function Gain(fd: Field, slot: Slot, vals: seq<Val>): Slot {
    if fd.repeated then Slot(slot.vals + vals)
    else if vals == [] then slot
    else
      var last := vals[|vals| - 1];
      if !fd.explicitPresence && IsZero(last) then Slot([]) else Slot([last])
  }

  // Zero, false and the empty string are the defaults; a message has none.
  predicate IsZero(val: Val) {
    val in {VDouble(0), VFloat(0), VInt32(0), VUint32(0), VInt64(0), VUint64(0),
            VBool(false), VString(""), VBytes(""), VEnum(0)}
  }

  function ReadMember(pool: Pool, fd: Field, m: Member): Slot
    decreases m
  {
    Gain(fd, Slot([]),
         if m.value.Arr? then ReadItems(pool, fd.kind, m.value.items) else Listed(ReadVal(pool, fd.kind, m.value)))
  }

  // A field holds what the member of its name says, wherever that stands, and is unset without one.
  function ReadField(pool: Pool, fd: Field, members: seq<Member>): Slot
    decreases members, 0
  {
    var k := FindMember(members, fd.name);
    if k < |members| then ReadMember(pool, fd, members[k]) else Slot([])
  }

  // The message that an object names by its first member.
  function ReadObject(pool: Pool, members: seq<Member>): Msg
    decreases members, 1
  {
    if members != [] && members[0].value.Str? && members[0].value.str in pool.types then
      var fields := pool.types[members[0].value.str];
      Plain(members[0].value.str, seq(|fields|, i requires 0 <= i < |fields| => ReadField(pool, fields[i], members)))
    else AnyRaw("")
  }

  // ----- Where a document holds a value in a field of some kind, such as an enum -----

  ghost predicate Holds(pool: Pool, what: Kind, kind: Kind, v: Value)
    decreases v
  {
    (kind == what && !v.Null?) || (kind.KMessage? && v.Obj? && ObjectHolds(pool, what, v.members))
  }

  ghost predicate ObjectHolds(pool: Pool, what: Kind, members: seq<Member>)
    decreases members
  {
    && members != [] && members[0].value.Str? && members[0].value.str in pool.types
    && exists k :: 1 <= k < |members| && MemberHolds(pool, what, pool.types[members[0].value.str], members[k])
  }

  ghost predicate MemberHolds(pool: Pool, what: Kind, fields: seq<Field>, m: Member)
    decreases m
  {
    var i := FindField(fields, m.name);
    if i == |fields| then m.value.Obj? && ObjectHolds(pool, what, m.value.members)
    else if m.value.Arr?
         then exists j :: 0 <= j < |m.value.items| && Holds(pool, what, fields[i].kind, m.value.items[j])
         else Holds(pool, what, fields[i].kind, m.value)
  }

  function Stops(holdsEnum: bool): Defect {
    if holdsEnum then EnumField else NoDefect
  }

  // ----- Reading one value, one field, all fields -----

  function Gained(pool: Pool, p: Msg, i: nat, vals: seq<Val>): Msg
    requires p.Plain? && p.typ in pool.types && i < |p.slots| == |pool.types[p.typ]|
  {
    p.(slots := p.slots[i := Gain(pool.types[p.typ][i], p.slots[i], vals)])
  }

  lemma {:induction false} GainTwice(pool: Pool, typ: string, p: Msg, i: nat, a: seq<Val>, b: seq<Val>)
    requires Building(pool, typ, p) && i < |p.slots|
    ensures Gained(pool, Gained(pool, p, i, a), i, b) == Gained(pool, p, i, a + b)
    ensures Gained(pool, p, i, []) == p
  {
    assert p.slots[i].vals + a + b == p.slots[i].vals + (a + b);
    assert p.slots[i].vals + [] == p.slots[i].vals && p.slots[i := p.slots[i]] == p.slots;
  }

  lemma {:induction false} LeafMeans(pool: Pool, kind: Kind, v: Value)
    requires Readable(pool, kind, v) && IsLeaf(v) && !v.Null?
    ensures Translate(pool, kind, v) == if kind == KEnum then (None, ZCAST_FAIL) else (ReadVal(pool, kind, v), ZOK)
  {
  }

  lemma {:induction false} GainOne(pool: Pool, typ: string, p: Msg, i: nat, val: Val)
    requires Building(pool, typ, p) && i < |p.slots|
    ensures Gained(pool, p, i, [val]) == StoreAt(pool, p, i, val)
  {
    assert IsZero(val) <==> IsDefault(val);
  }

  lemma {:induction false} LeafReads(pool: Pool, typ: string, p: Msg, i: nat, v: Value)
    requires ValidPool(pool) && Building(pool, typ, p) && i < |p.slots|
    requires Readable(pool, pool.types[typ][i].kind, v) && IsLeaf(v) && !v.Null?
    ensures
      var kind := pool.types[typ][i].kind;
      ReadsBack(pool, typ, Stops(Holds(pool, KEnum, kind, v)), RunLeaf(pool, Some(p), pool.types[typ][i].name, v),
                Gained(pool, p, i, Listed(ReadVal(pool, kind, v))))
  {
    FieldFound(pool, typ, p, i);
    LeafMeans(pool, pool.types[typ][i].kind, v);
    GainTwice(pool, typ, p, i, [], []);
    var val := ReadVal(pool, pool.types[typ][i].kind, v);
    if val.Some? {
      GainOne(pool, typ, p, i, val.value);
    }
  }

  // Merging a child that was read into the field it was found in.
  lemma {:induction false} ChildReads(
      pool: Pool, typ: string, p: Msg, i: nat, childTyp: string, holdsEnum: bool, child: Run<Option<Msg>>, m: Msg)
    requires ValidPool(pool) && Building(pool, typ, p) && i < |p.slots|
    requires Building(pool, childTyp, m) && ReadsBack(pool, childTyp, Stops(holdsEnum), child, m)
    requires pool.types[typ][i].kind == KMessage(childTyp) || pool.types[typ][i].kind == KMessage(NAME_ANY)
    ensures
      var isAny := pool.types[typ][i].kind == KMessage(NAME_ANY);
      ReadsBack(pool, typ, Stops(holdsEnum), RunObject(pool, Some(p), Some(pool.types[typ][i].name), child),
                Gained(pool, p, i, [VMsg(if isAny then AnyOf(m) else m)]))
  {
    FieldFound(pool, typ, p, i);
  }

  // One value, read either as a member or as an array element.
  lemma {:induction false} ValueReads(pool: Pool, typ: string, p: Msg, i: nat, v: Value)
    requires ValidPool(pool) && Building(pool, typ, p) && i < |p.slots|
    requires Readable(pool, pool.types[typ][i].kind, v)
    ensures
      var kind, name := pool.types[typ][i].kind, pool.types[typ][i].name;
      var done := Gained(pool, p, i, Listed(ReadVal(pool, kind, v)));
      && !v.Arr?
      && ReadsBack(pool, typ, Stops(Holds(pool, KEnum, kind, v)), RunMember(pool, Some(p), name, v), done)
      && ReadsBack(pool, typ, Stops(Holds(pool, KEnum, kind, v)), RunItem(pool, Some(p), name, v), done)
    decreases v, 1
  {
    FieldFound(pool, typ, p, i);
    var kind := pool.types[typ][i].kind;
    if v.Obj? {
      var ms := v.members;
      ObjectReads(pool, if kind.typ == NAME_ANY then None else Some(kind.typ), ms);
      ChildReads(pool, typ, p, i, ms[0].value.str, ObjectHolds(pool, KEnum, ms),
                 RunMembers(pool, None, ms), ReadObject(pool, ms));
    } else if v.Null? {
      GainTwice(pool, typ, p, i, [], []);
    } else {
      LeafReads(pool, typ, p, i, v);
    }
  }

  ghost predicate ItemsHold(pool: Pool, what: Kind, kind: Kind, items: seq<Value>) {
    exists j :: 0 <= j < |items| && Holds(pool, what, kind, items[j])
  }

  lemma {:induction false} FirstItem(pool: Pool, what: Kind, kind: Kind, items: seq<Value>)
    requires items != []
    ensures ItemsHold(pool, what, kind, items) <==>
            Holds(pool, what, kind, items[0]) || ItemsHold(pool, what, kind, items[1..])
  {
    assert forall j :: 0 < j < |items| ==> items[j] == items[1..][j - 1];
  }

  lemma {:induction false} ItemsRead(pool: Pool, typ: string, p: Msg, i: nat, items: seq<Value>)
    requires ValidPool(pool) && Building(pool, typ, p) && i < |p.slots|
    requires forall j :: 0 <= j < |items| ==> Readable(pool, pool.types[typ][i].kind, items[j])
    ensures
      var kind := pool.types[typ][i].kind;
      ReadsBack(pool, typ, Stops(ItemsHold(pool, KEnum, kind, items)),
                RunItems(pool, Some(p), pool.types[typ][i].name, items),
                Gained(pool, p, i, ReadItems(pool, kind, items)))
    decreases items, 0
  {
    var kind := pool.types[typ][i].kind;
    if items == [] {
      GainTwice(pool, typ, p, i, [], []);
    } else {
      FirstItem(pool, KEnum, kind, items);
      ValueReads(pool, typ, p, i, items[0]);
      if !Holds(pool, KEnum, kind, items[0]) {
        var first := Listed(ReadVal(pool, kind, items[0]));
        ItemsRead(pool, typ, Gained(pool, p, i, first), i, items[1..]);
        GainTwice(pool, typ, p, i, first, ReadItems(pool, kind, items[1..]));
      }
    }
  }

  // A message whose field of the member's name, if there is one, holds what the member says.
  function Put(pool: Pool, typ: string, p: Msg, m: Member): Msg
    requires p.Plain? && typ in pool.types && |p.slots| == |pool.types[typ]|
  {
    var i := FindField(pool.types[typ], m.name);
    if i < |p.slots| then p.(slots := p.slots[i := ReadMember(pool, pool.types[typ][i], m)]) else p
  }

  // One member, for a field that is still unset.
  lemma {:induction false} MemberReads(pool: Pool, typ: string, p: Msg, m: Member)
    requires ValidPool(pool) && Building(pool, typ, p) && ReadableMember(pool, pool.types[typ], m)
    requires
      var i := FindField(pool.types[typ], m.name);
      i < |p.slots| ==> p.slots[i] == Slot([])
    ensures
      ReadsBack(pool, typ, Stops(MemberHolds(pool, KEnum, pool.types[typ], m)),
                RunMember(pool, Some(p), CStr(m.name), m.value), Put(pool, typ, p, m))
    decreases m, 0
  {
    var i := FindField(pool.types[typ], m.name);
    if i < |p.slots| {
      FieldFound(pool, typ, p, i);
      if m.value.Arr? {
        ItemsRead(pool, typ, p, i, m.value.items);
      } else {
        ValueReads(pool, typ, p, i, m.value);
      }
    } else if m.value.Obj? {
      ObjectReads(pool, None, m.value.members);
      CStrIdentity(m.name);
    }
  }

  // A message with the fields that members name filled in, and the others as they were.
  function Filled(pool: Pool, p: Msg, members: seq<Member>): Msg
    requires p.Plain? && p.typ in pool.types && |p.slots| == |pool.types[p.typ]|
  {
    var fields := pool.types[p.typ];
    p.(slots := seq(|fields|, i requires 0 <= i < |fields| =>
      if FindMember(members, fields[i].name) < |members| then ReadField(pool, fields[i], members) else p.slots[i]))
  }

  // The fields that members name are unset.
  ghost predicate Unset(pool: Pool, p: Msg, members: seq<Member>)
    requires p.Plain? && p.typ in pool.types && |p.slots| == |pool.types[p.typ]|
  {
    forall i :: 0 <= i < |p.slots| && FindMember(members, pool.types[p.typ][i].name) < |members| ==>
      p.slots[i] == Slot([])
  }

  // The first member is the one of its field's name, and the others are found behind it.
  lemma {:induction false} FindBehind(fields: seq<Field>, members: seq<Member>)
    requires ValidFields(fields) && members != [] && DistinctNames(members)
    ensures
      var i := FindField(fields, members[0].name);
      && (i < |fields| ==> FindMember(members[1..], fields[i].name) == |members| - 1)
      && forall j :: 0 <= j < |fields| ==>
           FindMember(members, fields[j].name) == if j == i then 0 else 1 + FindMember(members[1..], fields[j].name)
  {
    assert forall k :: 0 <= k < |members[1..]| ==> members[1..][k] == members[k + 1];
  }

  lemma {:induction false} UnsetBehind(pool: Pool, typ: string, p: Msg, members: seq<Member>)
    requires ValidPool(pool) && Building(pool, typ, p) && Unset(pool, p, members)
    requires members != [] && DistinctNames(members)
    ensures
      var i := FindField(pool.types[typ], members[0].name);
      i < |p.slots| ==> p.slots[i] == Slot([])
    ensures Unset(pool, Put(pool, typ, p, members[0]), members[1..])
  {
    FindBehind(pool.types[typ], members);
  }

  lemma {:induction false} FillFirst(pool: Pool, typ: string, p: Msg, members: seq<Member>)
    requires ValidPool(pool) && Building(pool, typ, p) && members != [] && DistinctNames(members)
    ensures Filled(pool, Put(pool, typ, p, members[0]), members[1..]) == Filled(pool, p, members)
  {
    FindBehind(pool.types[typ], members);
  }

  ghost predicate AnyHolds(pool: Pool, what: Kind, fields: seq<Field>, members: seq<Member>) {
    exists k :: 0 <= k < |members| && MemberHolds(pool, what, fields, members[k])
  }

  lemma {:induction false} FirstMember(pool: Pool, what: Kind, fields: seq<Field>, members: seq<Member>)
    requires members != []
    ensures AnyHolds(pool, what, fields, members) <==>
            MemberHolds(pool, what, fields, members[0]) || AnyHolds(pool, what, fields, members[1..])
  {
    assert forall k :: 0 < k < |members| ==> members[k] == members[1..][k - 1];
  }

  // The first member is read, and the message it leaves still has room for the others.
  lemma {:induction false} FirstRead(pool: Pool, typ: string, p: Msg, members: seq<Member>)
    requires ValidPool(pool) && Building(pool, typ, p) && Unset(pool, p, members)
    requires members != [] && DistinctNames(members) && ReadableMember(pool, pool.types[typ], members[0])
    ensures
      var p' := Put(pool, typ, p, members[0]);
      && ReadsBack(pool, typ, Stops(MemberHolds(pool, KEnum, pool.types[typ], members[0])),
                   RunMember(pool, Some(p), CStr(members[0].name), members[0].value), p')
      && Building(pool, typ, p') && Unset(pool, p', members[1..])
      && Filled(pool, p', members[1..]) == Filled(pool, p, members)
    decreases members, 0
  {
    UnsetBehind(pool, typ, p, members);
    FillFirst(pool, typ, p, members);
    MemberReads(pool, typ, p, members[0]);
  }

  lemma {:induction false} MembersRead(pool: Pool, typ: string, p: Msg, members: seq<Member>)
    requires ValidPool(pool) && Building(pool, typ, p) && DistinctNames(members) && Unset(pool, p, members)
    requires forall k :: 0 <= k < |members| ==> ReadableMember(pool, pool.types[typ], members[k])
    ensures
      ReadsBack(pool, typ, Stops(AnyHolds(pool, KEnum, pool.types[typ], members)), RunMembers(pool, Some(p), members),
                Filled(pool, p, members))
    decreases members, 1
  {
    if members == [] {
      assert Filled(pool, p, members).slots == p.slots;
    } else {
      var fields := pool.types[typ];
      FirstRead(pool, typ, p, members);
      FirstMember(pool, KEnum, fields, members);
      if !MemberHolds(pool, KEnum, fields, members[0]) {
        var p' := Put(pool, typ, p, members[0]);
        assert RunMembers(pool, Some(p), members) == RunMembers(pool, Some(p'), members[1..]);
        MembersRead(pool, typ, p', members[1..]);
      }
    }
  }

  // Looking up a field's name does not meet the leading member.
  lemma {:induction false} BehindTag(pool: Pool, members: seq<Member>, i: nat)
    requires ValidPool(pool) && ReadableObject(pool, None, members) && i < |pool.types[members[0].value.str]|
    ensures
      var name := pool.types[members[0].value.str][i].name;
      && FindMember(members, name) == 1 + FindMember(members[1..], name)
      && Lookup(members, name) == Lookup(members[1..], name)
  {
    assert ValidFields(pool.types[members[0].value.str]) && IsIdentifier(pool.types[members[0].value.str][i].name);
  }

  // A new message filled in from an object is the message the object stands for.
  lemma {:induction false} FilledNew(pool: Pool, members: seq<Member>)
    requires ValidPool(pool) && ReadableObject(pool, None, members)
    ensures
      var typ := members[0].value.str;
      && Building(pool, typ, New(pool, typ)) && Building(pool, typ, ReadObject(pool, members))
      && Unset(pool, New(pool, typ), members[1..])
      && Filled(pool, New(pool, typ), members[1..]) == ReadObject(pool, members)
  {
    var fields := pool.types[members[0].value.str];
    forall i | 0 <= i < |fields|
      ensures FindMember(members, fields[i].name) == 1 + FindMember(members[1..], fields[i].name)
    {
      BehindTag(pool, members, i);
    }
  }

  lemma {:induction false} HoldsBehindTag(pool: Pool, what: Kind, members: seq<Member>)
    requires ReadableObject(pool, None, members)
    ensures ObjectHolds(pool, what, members) <==> AnyHolds(pool, what, pool.types[members[0].value.str], members[1..])
  {
    assert forall k :: 0 < k < |members| ==> members[k] == members[1..][k - 1];
  }

  lemma {:induction false} AnyTagCreates(pool: Pool, members: seq<Member>)
    requires ValidPool(pool) && ReadableObject(pool, None, members)
    ensures RunMembers(pool, None, members) == RunMembers(pool, Some(New(pool, members[0].value.str)), members[1..])
  {
    var tag := members[0];
    CStrIdentity(tag.value.str);
    assert IsAtName(CStr(tag.name));
    assert RunMember(pool, None, CStr(tag.name), tag.value) == Ran(Some(New(pool, tag.value.str)), ZOK);
  }

  lemma {:induction false} ObjectReads(pool: Pool, expected: Option<string>, members: seq<Member>)
    requires ValidPool(pool) && ReadableObject(pool, expected, members)
    ensures Building(pool, members[0].value.str, ReadObject(pool, members))
    ensures
      ReadsBack(pool, members[0].value.str, Stops(ObjectHolds(pool, KEnum, members)), RunMembers(pool, None, members),
                ReadObject(pool, members))
    decreases members, 2
  {
    var typ, rest := members[0].value.str, members[1..];
    AnyTagCreates(pool, members);
    FilledNew(pool, members);
    HoldsBehindTag(pool, KEnum, members);
    forall k | 0 <= k < |rest| ensures ReadableMember(pool, pool.types[typ], rest[k]) {
      assert rest[k] == members[k + 1];
    }
    MembersRead(pool, typ, New(pool, typ), rest);
  }

  lemma {:induction false} ReadableIsRegular(pool: Pool, kind: Kind, v: Value)
    requires ValidPool(pool) && Readable(pool, kind, v)
    ensures !v.Arr? && Regular(v)
    decreases v, 1
  {
    if v.Obj? {
      ReadableObjectIsRegular(pool, if kind.typ == NAME_ANY then None else Some(kind.typ), v.members);
    }
  }

  lemma {:induction false} ReadableObjectIsRegular(pool: Pool, expected: Option<string>, members: seq<Member>)
    requires ValidPool(pool) && ReadableObject(pool, expected, members)
    ensures RegularMembers(members)
    decreases members, 0
  {
    forall k | 0 <= k < |members| ensures RegularMember(members[k]) {
      if k > 0 {
        ReadableMemberIsRegular(pool, pool.types[members[0].value.str], members[k]);
      }
    }
  }

  lemma {:induction false} ReadableMemberIsRegular(pool: Pool, fields: seq<Field>, m: Member)
    requires ValidPool(pool) && ValidFields(fields) && ReadableMember(pool, fields, m)
    ensures RegularMember(m)
    decreases m, 0
  {
    var i := FindField(fields, m.name);
    if m.value.Arr? {
      assert IsIdentifier(fields[i].name);
      var items := m.value.items;
      forall j | 0 <= j < |items| ensures !items[j].Arr? && Regular(items[j]) {
        ReadableIsRegular(pool, fields[i].kind, items[j]);
      }
    } else if i == |fields| && m.value.Obj? {
      ReadableObjectIsRegular(pool, None, m.value.members);
    } else if !m.value.Null? {
      ReadableIsRegular(pool, fields[i].kind, m.value);
    }
  }

  /** Every document that fits the schema, whoever wrote it: Json2pb returns ZCAST_FAIL if and only
      if the document holds an enum value at some depth; otherwise it returns the message in which
      each field holds what the member of its name says and every other field is unset. */
  lemma {:induction false} FittingJsonDecodes(pool: Pool, members: seq<Member>)
    requires ValidPool(pool) && ReadableObject(pool, None, members)
    ensures
      Decode(pool, Obj(members)) ==
      if ObjectHolds(pool, KEnum, members) then Returned(ZCAST_FAIL, None)
      else Returned(ZOK, Some(ReadObject(pool, members)))
  {
    ReadableObjectIsRegular(pool, None, members);
    JsonToMessage(pool, members);
    ObjectReads(pool, None, members);
  }

  // ----- What the encoder writes fits -----

  lemma {:induction false} FitsIsReadable(pool: Pool, kind: Kind, v: Value)
    requires Fits(pool, true, kind, v)
    ensures Readable(pool, kind, v) && !v.Arr?
    decreases v, 1
  {
    if kind.KMessage? {
      FitsObjectIsReadable(pool, if kind.typ == NAME_ANY then None else Some(kind.typ), v.members);
    }
  }

  lemma {:induction false} FitsObjectIsReadable(pool: Pool, expected: Option<string>, members: seq<Member>)
    requires FitsObject(pool, true, expected, members)
    ensures ReadableObject(pool, expected, members)
    decreases members, 0
  {
    var fields := pool.types[members[0].value.str];
    forall k | 1 <= k < |members| ensures ReadableMember(pool, fields, members[k]) {
      FitsMemberIsReadable(pool, fields, members[k]);
    }
  }

  lemma {:induction false} FitsMemberIsReadable(pool: Pool, fields: seq<Field>, m: Member)
    requires FitsMember(pool, true, fields, m)
    ensures ReadableMember(pool, fields, m)
    decreases m, 0
  {
    var fd := fields[FindField(fields, m.name)];
    if fd.repeated {
      var items := m.value.items;
      forall j | 0 <= j < |items| ensures Readable(pool, fd.kind, items[j]) {
        FitsIsReadable(pool, fd.kind, items[j]);
      }
    } else {
      FitsIsReadable(pool, fd.kind, m.value);
    }
  }

  /** The encoder writes documents that fit, for every message all of whose Anys resolve. */
  lemma {:induction false} EncodedFits(pool: Pool, m: Msg)
    requires ValidPool(pool) && Conforms(pool, m) && Resolvable(m)
    ensures ReadableObject(pool, Expected(m), Written(pool, m))
  {
    MessageFits(pool, true, m);
    FitsObjectIsReadable(pool, Expected(m), Written(pool, m));
  }

  // ----- The message is one that the generated classes can hold -----

  ghost predicate Proper(pool: Pool, kind: Kind, val: Val) {
    KindOf(val) == kind && InRange(val) && (val.VMsg? ==> Conforms(pool, val.m))
  }

  ghost predicate AllProper(pool: Pool, kind: Kind, vals: seq<Val>) {
    forall j :: 0 <= j < |vals| ==> Proper(pool, kind, vals[j])
  }

  lemma {:induction false} ReadValProper(pool: Pool, kind: Kind, v: Value)
    requires ValidPool(pool) && Readable(pool, kind, v) && !Holds(pool, KEnum, kind, v)
    ensures ReadVal(pool, kind, v).Some? ==> Proper(pool, kind, ReadVal(pool, kind, v).value)
    decreases v, 1
  {
    if v.Obj? {
      ReadObjectConforms(pool, if kind.typ == NAME_ANY then None else Some(kind.typ), v.members);
    }
  }

  lemma {:induction false} ReadItemsProper(pool: Pool, kind: Kind, items: seq<Value>)
    requires ValidPool(pool) && !ItemsHold(pool, KEnum, kind, items)
    requires forall j :: 0 <= j < |items| ==> Readable(pool, kind, items[j])
    ensures AllProper(pool, kind, ReadItems(pool, kind, items))
    decreases items, 0
  {
    if items != [] {
      FirstItem(pool, KEnum, kind, items);
      ReadValProper(pool, kind, items[0]);
      ReadItemsProper(pool, kind, items[1..]);
    }
  }

  lemma {:induction false} GainConforms(pool: Pool, fd: Field, vals: seq<Val>)
    requires AllProper(pool, fd.kind, vals)
    ensures SlotConforms(pool, fd, Gain(fd, Slot([]), vals))
  {
    var slot := Gain(fd, Slot([]), vals);
    forall j | 0 <= j < |slot.vals| ensures ValConforms(pool, fd, slot.vals[j]) {
      assert Proper(pool, fd.kind, vals[if fd.repeated then j else |vals| - 1]);
    }
  }

  lemma {:induction false} ReadMemberConforms(pool: Pool, fields: seq<Field>, m: Member)
    requires ValidPool(pool) && ReadableMember(pool, fields, m) && FindField(fields, m.name) < |fields|
    requires !MemberHolds(pool, KEnum, fields, m)
    ensures SlotConforms(pool, fields[FindField(fields, m.name)],
                         ReadMember(pool, fields[FindField(fields, m.name)], m))
    decreases m, 0
  {
    var fd := fields[FindField(fields, m.name)];
    if m.value.Arr? {
      ReadItemsProper(pool, fd.kind, m.value.items);
      GainConforms(pool, fd, ReadItems(pool, fd.kind, m.value.items));
    } else {
      ReadValProper(pool, fd.kind, m.value);
      GainConforms(pool, fd, Listed(ReadVal(pool, fd.kind, m.value)));
    }
  }

  lemma {:induction false} ReadObjectConforms(pool: Pool, expected: Option<string>, members: seq<Member>)
    requires ValidPool(pool) && ReadableObject(pool, expected, members) && !ObjectHolds(pool, KEnum, members)
    ensures ReadObject(pool, members).Plain? && ReadObject(pool, members).typ == members[0].value.str
    ensures Conforms(pool, ReadObject(pool, members))
    decreases members, 0
  {
    var fields := pool.types[members[0].value.str];
    forall i | 0 <= i < |fields| ensures SlotConforms(pool, fields[i], ReadField(pool, fields[i], members)) {
      assert ValidFields(fields) && IsIdentifier(fields[i].name);
      var k := FindMember(members, fields[i].name);
      if k < |members| {
        assert k > 0 && FindField(fields, fields[i].name) == i;
        ReadMemberConforms(pool, fields, members[k]);
      }
    }
  }

  /** What an enum-free fitting document decodes to conforms to the schema and is of the type that
      the document names. */
  lemma {:induction false} DecodedConforms(pool: Pool, members: seq<Member>)
    requires ValidPool(pool) && ReadableObject(pool, None, members) && !ObjectHolds(pool, KEnum, members)
    ensures
      var r := Decode(pool, Obj(members));
      && r.Returned? && r.code == ZOK && r.pb.Some?
      && TypeName(r.pb.value) == members[0].value.str && Conforms(pool, r.pb.value)
  {
    FittingJsonDecodes(pool, members);
    ReadObjectConforms(pool, None, members);
  }
}
