/** When the stack machine keeps its frames in order: undefined behaviour, exactly, by types alone. */
module Framing {
  import opened Common
  import opened Traversal
  import opened Protobuf
  import opened Decoder
  import opened BigStep

  // ----- A dry run that knows the types of the messages and none of their values -----

  // An Any has none of the fields of its content.
  function FieldsOf(pool: Pool, typ: string): seq<Field> {
    if typ in pool.types then pool.types[typ] else []
  }

  // The type of the message being read, and the code, after the members of an object.
  function CheckMembers(pool: Pool, ot: Option<string>, members: seq<Member>): Run<Option<string>>
    decreases members
  {
    if members == [] then Ran(ot, ZOK)
    else
      var r := CheckMember(pool, ot, CStr(members[0].name), members[0].value);
      if r.Crash? || r.code != ZOK then r else CheckMembers(pool, r.value, members[1..])
  }

  function CheckMember(pool: Pool, ot: Option<string>, name: string, v: Value): Run<Option<string>>
    decreases v
  {
    if v.Null? then Ran(ot, ZOK)
    else if v.Obj? then CheckObject(pool, ot, Some(name), CheckMembers(pool, None, v.members))
    else if v.Arr? then CheckItems(pool, ot, name, v.items)
    else if v.Str? && IsAtName(name) then
      if Resolves(pool, CStr(v.str)) then Ran(Some(CStr(v.str)), ZOK) else Ran(ot, ZCAST_FAIL)
    else CheckLeaf(pool, ot, name, v)
  }

  function CheckItems(pool: Pool, ot: Option<string>, name: string, items: seq<Value>): Run<Option<string>>
    decreases items
  {
    if items == [] then Ran(ot, ZOK)
    else
      var r := CheckItem(pool, ot, name, items[0]);
      if r.Crash? || r.code != ZOK then r else CheckItems(pool, r.value, name, items[1..])
  }

  function CheckItem(pool: Pool, ot: Option<string>, name: string, v: Value): Run<Option<string>>
    decreases v
  {
    if v.Null? then Ran(ot, ZOK)
    else if v.Obj? then
      var child := CheckMembers(pool, None, v.members);
      CheckObject(pool, ot, if child.Ran? && child.value.Some? then Some(name) else None, child)
    else CheckLeaf(pool, ot, name, v)
  }

  function CheckLeaf(pool: Pool, ot: Option<string>, name: string, v: Value): Run<Option<string>> {
    if ot.None? then if IsAtName(name) then Crash else Ran(None, ZPARAM_INVALID)
    else
      var fields := FieldsOf(pool, ot.value);
      var i := FindField(fields, name);
      Ran(ot, if i < |fields| then LeafCode(fields[i].kind, v) else ZPARAM_INVALID)
  }

  // The code of a leaf by the kind of its field. A number is taken by every kind of number, whatever
  // its own type, and refused with another code than the other leaves.
  function LeafCode(kind: Kind, v: Value): Code {
    match v
    case Str(_) => if kind in {KString, KBytes} then ZOK else ZPARAM_INVALID
    case True => if kind == KBool then ZOK else ZPARAM_INVALID
    case False => if kind == KBool then ZOK else ZPARAM_INVALID
    case Num(_) => if kind in {KDouble, KFloat, KInt32, KUint32, KInt64, KUint64} then ZOK else ZCAST_FAIL
    case _ => ZNOT_SUPPORT
  }

  // A message must stand inside one, in a field of its own type or of Any; under an unknown name
  // it is dropped.
  function CheckObject(
      pool: Pool, ot: Option<string>, key: Option<string>, child: Run<Option<string>>): Run<Option<string>> {
    if child.Crash? || ot.None? || key.None? then Crash
    else
      var fields := FieldsOf(pool, ot.value);
      var i := FindField(fields, key.value);
      if i < |fields|
         && !(fields[i].kind.KMessage? && child.value.Some? && fields[i].kind.typ in {NAME_ANY, child.value.value})
      then Crash
      else Ran(ot, child.code)
  }

  // ----- The dry run is exact -----

  // A message as the decoder builds it.
  ghost predicate Shaped(pool: Pool, om: Option<Msg>) {
    om.Some? ==>
      var m := om.value;
      m.AnyRaw? || (m.Plain? && m.typ in pool.types && |m.slots| == |pool.types[m.typ]|)
  }

  function TypeOf(om: Option<Msg>): Option<string> {
    if om.None? then None else Some(TypeName(om.value))
  }

  function Typed(run: Run<Option<Msg>>): Run<Option<string>> {
    match run
    case Crash => Crash
    case Ran(om, code) => Ran(TypeOf(om), code)
  }

  ghost predicate ShapedRun(pool: Pool, run: Run<Option<Msg>>) {
    run.Ran? ==> Shaped(pool, run.value)
  }

  lemma {:induction false} LeafChecked(pool: Pool, om: Option<Msg>, name: string, v: Value)
    requires ValidPool(pool) && Shaped(pool, om)
    ensures Typed(RunLeaf(pool, om, name, v)) == CheckLeaf(pool, TypeOf(om), name, v)
    ensures ShapedRun(pool, RunLeaf(pool, om, name, v))
  {
  }

  lemma {:induction false} ObjectChecked(pool: Pool, om: Option<Msg>, key: Option<string>, child: Run<Option<Msg>>)
    requires ValidPool(pool) && Shaped(pool, om)
    ensures Typed(RunObject(pool, om, key, child)) == CheckObject(pool, TypeOf(om), key, Typed(child))
    ensures ShapedRun(pool, RunObject(pool, om, key, child))
  {
  }

  lemma {:induction false} ItemChecked(pool: Pool, om: Option<Msg>, name: string, v: Value)
    requires ValidPool(pool) && Shaped(pool, om)
    ensures Typed(RunItem(pool, om, name, v)) == CheckItem(pool, TypeOf(om), name, v)
    ensures ShapedRun(pool, RunItem(pool, om, name, v))
    decreases v, 0
  {
    if v.Obj? {
      var child := RunMembers(pool, None, v.members);
      MembersChecked(pool, None, v.members);
      ObjectChecked(pool, om, if child.Ran? && child.value.Some? then Some(name) else None, child);
    } else {
      LeafChecked(pool, om, name, v);
    }
  }

  lemma {:induction false} ItemsChecked(pool: Pool, om: Option<Msg>, name: string, items: seq<Value>)
    requires ValidPool(pool) && Shaped(pool, om)
    ensures Typed(RunItems(pool, om, name, items)) == CheckItems(pool, TypeOf(om), name, items)
    ensures ShapedRun(pool, RunItems(pool, om, name, items))
    decreases items, 1
  {
    if items != [] {
      ItemChecked(pool, om, name, items[0]);
      var r := RunItem(pool, om, name, items[0]);
      if r.Ran? {
        ItemsChecked(pool, r.value, name, items[1..]);
      }
    }
  }

  lemma {:induction false} MemberChecked(pool: Pool, om: Option<Msg>, name: string, v: Value)
    requires ValidPool(pool) && Shaped(pool, om)
    ensures Typed(RunMember(pool, om, name, v)) == CheckMember(pool, TypeOf(om), name, v)
    ensures ShapedRun(pool, RunMember(pool, om, name, v))
    decreases v, 0
  {
    if v.Obj? {
      MembersChecked(pool, None, v.members);
      ObjectChecked(pool, om, Some(name), RunMembers(pool, None, v.members));
    } else if v.Arr? {
      ItemsChecked(pool, om, name, v.items);
    } else {
      LeafChecked(pool, om, name, v);
    }
  }

  lemma {:induction false} MembersChecked(pool: Pool, om: Option<Msg>, members: seq<Member>)
    requires ValidPool(pool) && Shaped(pool, om)
    ensures Typed(RunMembers(pool, om, members)) == CheckMembers(pool, TypeOf(om), members)
    ensures ShapedRun(pool, RunMembers(pool, om, members))
    decreases members, 1
  {
    if members != [] {
      MemberChecked(pool, om, CStr(members[0].name), members[0].value);
      var r := RunMember(pool, om, CStr(members[0].name), members[0].value);
      if r.Ran? {
        MembersChecked(pool, r.value, members[1..]);
      }
    }
  }

  /** Undefined behaviour and the code that Json2pb returns depend on the document's types alone,
      never on a value stored before: the dry run over types tells both, for every regular object. */
  lemma {:induction false} DefinedExactly(pool: Pool, members: seq<Member>)
    requires ValidPool(pool) && RegularMembers(members)
    ensures
      var dry, r := CheckMembers(pool, None, members), Decode(pool, Obj(members));
      && (r.Undefined? <==> dry.Crash?)
      && (r.Returned? ==> r.code == dry.code && TypeOf(r.pb) == if dry.code == ZOK then dry.value else None)
  {
    MembersChecked(pool, None, members);
    JsonToMessage(pool, members);
  }

  // ----- Documents whose objects are in order -----

  // An object names its type first, the expected one if any, and so does each object in it; those
  // stand in message fields of their type or of Any, or under names that are no field. Arrays hold
  // no arrays. Leaves may be anything.
  ghost predicate Framed(pool: Pool, expected: Option<string>, members: seq<Member>)
    decreases members
  {
    && members != [] && IsAtName(CStr(members[0].name)) && members[0].value.Str?
    && var typ := CStr(members[0].value.str);
    && Resolves(pool, typ) && (expected.Some? ==> typ == expected.value)
    && forall k :: 1 <= k < |members| ==> FramedMember(pool, FieldsOf(pool, typ), members[k])
  }

  ghost predicate FramedMember(pool: Pool, fields: seq<Field>, m: Member)
    decreases m
  {
    && !IsAtName(CStr(m.name))
    && FramedValue(pool, fields, CStr(m.name), m.value)
    && (m.value.Arr? ==>
         forall j :: 0 <= j < |m.value.items| ==> FramedItem(pool, fields, CStr(m.name), m.value.items[j]))
  }

  ghost predicate FramedItem(pool: Pool, fields: seq<Field>, name: string, v: Value)
    decreases v, 1
  {
    !v.Arr? && FramedValue(pool, fields, name, v)
  }

  ghost predicate FramedValue(pool: Pool, fields: seq<Field>, name: string, v: Value)
    decreases v, 0
  {
    v.Obj? ==>
      var i := FindField(fields, name);
      if i == |fields| then Framed(pool, None, v.members)
      else fields[i].kind.KMessage? && Framed(pool, ExpectedIn(fields[i]), v.members)
  }

  // The type that an object in a message field must have, if only one will do.
  function ExpectedIn(fd: Field): Option<string>
    requires fd.kind.KMessage?
  {
    if fd.kind.typ == NAME_ANY then None else Some(fd.kind.typ)
  }

  ghost predicate FramedMembers(pool: Pool, typ: string, members: seq<Member>) {
    forall k :: 0 <= k < |members| ==> FramedMember(pool, FieldsOf(pool, typ), members[k])
  }

  // A dry run that keeps to the type.
  predicate Keeps(typ: string, run: Run<Option<string>>) {
    run.Ran? && run.value == Some(typ)
  }

  lemma {:induction false} FramedValueKeeps(pool: Pool, typ: string, name: string, v: Value)
    requires ValidPool(pool) && FramedItem(pool, FieldsOf(pool, typ), name, v) && !IsAtName(name)
    ensures Keeps(typ, CheckMember(pool, Some(typ), name, v)) && Keeps(typ, CheckItem(pool, Some(typ), name, v))
    decreases v, 1
  {
    if v.Obj? {
      var fields := FieldsOf(pool, typ);
      var i := FindField(fields, name);
      FramedKeeps(pool, if i == |fields| then None else ExpectedIn(fields[i]), v.members);
    }
  }

  lemma {:induction false} FramedItemsKeep(pool: Pool, typ: string, name: string, items: seq<Value>)
    requires ValidPool(pool) && !IsAtName(name)
    requires forall j :: 0 <= j < |items| ==> FramedItem(pool, FieldsOf(pool, typ), name, items[j])
    ensures Keeps(typ, CheckItems(pool, Some(typ), name, items))
    decreases items, 0
  {
    if items != [] {
      FramedValueKeeps(pool, typ, name, items[0]);
      FramedItemsKeep(pool, typ, name, items[1..]);
    }
  }

  lemma {:induction false} FramedMemberKeeps(pool: Pool, typ: string, m: Member)
    requires ValidPool(pool) && FramedMember(pool, FieldsOf(pool, typ), m)
    ensures Keeps(typ, CheckMember(pool, Some(typ), CStr(m.name), m.value))
    decreases m, 0
  {
    if m.value.Arr? {
      FramedItemsKeep(pool, typ, CStr(m.name), m.value.items);
    } else {
      FramedValueKeeps(pool, typ, CStr(m.name), m.value);
    }
  }

  lemma {:induction false} FramedMembersKeep(pool: Pool, typ: string, members: seq<Member>)
    requires ValidPool(pool) && FramedMembers(pool, typ, members)
    ensures Keeps(typ, CheckMembers(pool, Some(typ), members))
    decreases members, 0
  {
    if members != [] {
      FramedMemberKeeps(pool, typ, members[0]);
      FramedMembersKeep(pool, typ, members[1..]);
    }
  }

  lemma {:induction false} FramedKeeps(pool: Pool, expected: Option<string>, members: seq<Member>)
    requires ValidPool(pool) && Framed(pool, expected, members)
    ensures Keeps(CStr(members[0].value.str), CheckMembers(pool, None, members))
    decreases members, 1
  {
    FramedMembersKeep(pool, CStr(members[0].value.str), members[1..]);
  }

  lemma {:induction false} FramedIsRegular(pool: Pool, expected: Option<string>, members: seq<Member>)
    requires Framed(pool, expected, members)
    ensures RegularMembers(members)
    decreases members, 0
  {
    var fields := FieldsOf(pool, CStr(members[0].value.str));
    forall k | 0 <= k < |members| ensures RegularMember(members[k]) {
      if k > 0 {
        FramedMemberIsRegular(pool, fields, members[k]);
      }
    }
  }

  lemma {:induction false} FramedMemberIsRegular(pool: Pool, fields: seq<Field>, m: Member)
    requires FramedMember(pool, fields, m)
    ensures RegularMember(m)
    decreases m, 0
  {
    var name := CStr(m.name);
    if m.value.Arr? {
      var items := m.value.items;
      forall j | 0 <= j < |items| ensures !items[j].Arr? && Regular(items[j]) {
        assert FramedItem(pool, fields, name, items[j]);
        FramedValueIsRegular(pool, fields, name, items[j]);
      }
    } else {
      FramedValueIsRegular(pool, fields, name, m.value);
    }
  }

  lemma {:induction false} FramedValueIsRegular(pool: Pool, fields: seq<Field>, name: string, v: Value)
    requires FramedValue(pool, fields, name, v)
    ensures Regular(v)
    decreases v, 1
  {
    if v.Obj? {
      var i := FindField(fields, name);
      FramedIsRegular(pool, if i == |fields| then None else ExpectedIn(fields[i]), v.members);
    }
  }

  // ----- The height of the stack -----

  /** Over any JSON value whatever, arrays inside arrays included, the machine ends at the height it
      started from, unless it has become undefined; only a root object leaves a frame behind. */
  lemma {:induction false} HeightKept(pool: Pool, fs: seq<Frame>, name: Option<string>, v: Value)
    ensures
      var stack := Visit(OnEvent(pool), Some(fs), name, v).0;
      stack.Some? ==> |stack.value| == if fs == [] && v.Obj? then 1 else |fs|
    decreases v, 0
  {
    match v
    case Arr(items) => ItemsKeepHeight(pool, fs + [ArrFrame(CKey(name))], items);
    case Obj(members) => MembersKeepHeight(pool, fs + [MsgFrame(CKey(name), None)], members);
    case _ =>
  }

  lemma {:induction false} ItemsKeepHeight(pool: Pool, fs: seq<Frame>, items: seq<Value>)
    requires fs != []
    ensures
      var stack := VisitItems(OnEvent(pool), Some(fs), items).0;
      stack.Some? ==> |stack.value| == |fs|
    decreases items, 1
  {
    if items != [] {
      HeightKept(pool, fs, None, items[0]);
      var first := Visit(OnEvent(pool), Some(fs), None, items[0]);
      if first.0.Some? {
        ItemsKeepHeight(pool, first.0.value, items[1..]);
      } else {
        CrashedStaysItems(pool, items[1..]);
      }
    }
  }

  lemma {:induction false} MembersKeepHeight(pool: Pool, fs: seq<Frame>, members: seq<Member>)
    requires fs != []
    ensures
      var stack := VisitMembers(OnEvent(pool), Some(fs), members).0;
      stack.Some? ==> |stack.value| == |fs|
    decreases members, 1
  {
    if members != [] {
      HeightKept(pool, fs, Some(members[0].name), members[0].value);
      var first := Visit(OnEvent(pool), Some(fs), Some(members[0].name), members[0].value);
      if first.0.Some? {
        MembersKeepHeight(pool, first.0.value, members[1..]);
      } else {
        CrashedStaysMembers(pool, members[1..]);
      }
    }
  }

  /** Json2pb never takes anything but an object for a message; null gives ZPARAM_INVALID. */
  lemma {:induction false} OnlyObjectsDecode(pool: Pool, v: Value)
    requires !v.Obj?
    ensures Decode(pool, v).Returned? ==> Decode(pool, v).code != ZOK && Decode(pool, v).pb == None
    ensures v.Null? ==> Decode(pool, v) == Returned(ZPARAM_INVALID, None)
  {
    HeightKept(pool, [], None, v);
  }

  // ----- Balanced frames -----

  // The stack holds, on `base`, one frame with a message of that type.
  ghost predicate OneFrame(pool: Pool, base: seq<Frame>, typ: string, stack: Stack) {
    && stack.Some? && |stack.value| == |base| + 1 && stack.value[..|base|] == base
    && stack.value[|base|].MsgFrame? && Shaped(pool, stack.value[|base|].msg)
    && TypeOf(stack.value[|base|].msg) == Some(typ)
  }

  // The key under which a message will be merged: the name it was opened with, that of the array it
  // is an element of, or, at the root, the name of its type.
  function KeyFor(base: seq<Frame>, key: Option<string>, typ: string): Option<string> {
    if key.Some? then key else if base != [] then Last(base).key else Some(typ)
  }

  /** The first member of an object whose objects are in order makes its frame a new message of the
      type it names, to be merged under the right name. */
  lemma {:induction false} TagStarts(
      pool: Pool, base: seq<Frame>, key: Option<string>, expected: Option<string>, members: seq<Member>)
    requires Framed(pool, expected, members)
    ensures
      var typ := CStr(members[0].value.str);
      Visit(OnEvent(pool), Some(InMessage(base, key, None)), Some(members[0].name), members[0].value)
      == (Some(InMessage(base, KeyFor(base, key, typ), Some(New(pool, typ)))), ZOK)
  {
    var fs, typ := InMessage(base, key, None), CStr(members[0].value.str);
    assert base != [] ==> fs[|fs| - 2] == Last(base);
    assert forall f :: fs[|base| := f] == base + [f];
  }

  /** Balanced frames at the root: whatever the leaves of a document hold, if its objects are in
      order the run never becomes undefined, not even when a leaf aborts it, and leaves exactly one
      frame, with a message of the type that the document names. */
  lemma {:induction false} RootBalanced(pool: Pool, members: seq<Member>)
    requires ValidPool(pool) && Framed(pool, None, members)
    ensures OneFrame(pool, [], CStr(members[0].value.str), Visit(OnEvent(pool), Some([]), None, Obj(members)).0)
    ensures Decode(pool, Obj(members)).Returned?
  {
    FramedIsRegular(pool, None, members);
    FramedKeeps(pool, None, members);
    MembersChecked(pool, None, members);
    MembersRefine(pool, [], None, None, members);
    JsonToMessage(pool, members);
    assert [] + [MsgFrame(None, None)] == InMessage([], None, None);
  }

  /** Balanced frames for one member, at any depth: over a leaf, an object or an array the machine
      returns to the height it started from, with every frame below unchanged and a message of the
      same type in the frame itself, whether or not a leaf aborts. */
  lemma {:induction false} FramesBalanced(pool: Pool, base: seq<Frame>, key: Option<string>, om: Option<Msg>, m: Member)
    requires ValidPool(pool) && om.Some? && Shaped(pool, om) && CanStand(base, key, om)
    requires FramedMember(pool, FieldsOf(pool, TypeName(om.value)), m)
    ensures
      OneFrame(pool, base, TypeName(om.value),
               Visit(OnEvent(pool), Some(InMessage(base, key, om)), Some(m.name), m.value).0)
  {
    FramedMemberIsRegular(pool, FieldsOf(pool, TypeName(om.value)), m);
    FramedMemberKeeps(pool, TypeName(om.value), m);
    MemberChecked(pool, om, CStr(m.name), m.value);
    MemberRefines(pool, base, key, om, m);
  }

  /** And for an element of an array: the array's own frame is unchanged too. */
  lemma {:induction false} ElementFramesBalanced(
      pool: Pool, base: seq<Frame>, key: Option<string>, om: Option<Msg>, name: string, v: Value)
    requires ValidPool(pool) && om.Some? && Shaped(pool, om) && !IsAtName(name)
    requires FramedItem(pool, FieldsOf(pool, TypeName(om.value)), name, v)
    ensures
      var stack := Visit(OnEvent(pool), Some(InArray(base, key, om, name)), None, v).0;
      && stack.Some? && |stack.value| == |base| + 2 && stack.value[|base| + 1] == ArrFrame(Some(name))
      && OneFrame(pool, base, TypeName(om.value), Some(stack.value[..|base| + 1]))
      && stack.value[|base|].key == key
  {
    FramedValueIsRegular(pool, FieldsOf(pool, TypeName(om.value)), name, v);
    FramedValueKeeps(pool, TypeName(om.value), name, v);
    ItemChecked(pool, om, name, v);
    ItemRefines(pool, base, key, om, name, v);
  }

  /** The exact condition, for any member of any regular tree: the machine ends with its frames
      balanced if and only if the dry run over types does not fail. */
  lemma {:induction false} BalancedExactly(
      pool: Pool, base: seq<Frame>, key: Option<string>, om: Option<Msg>, m: Member)
    requires ValidPool(pool) && Shaped(pool, om) && CanStand(base, key, om) && RegularMember(m)
    ensures
      var stack := Visit(OnEvent(pool), Some(InMessage(base, key, om)), Some(m.name), m.value).0;
      CheckMember(pool, TypeOf(om), CStr(m.name), m.value).Ran? <==>
        && stack.Some? && |stack.value| == |base| + 1 && stack.value[..|base|] == base
        && stack.value[|base|].MsgFrame?
  {
    MemberChecked(pool, om, CStr(m.name), m.value);
    MemberRefines(pool, base, key, om, m);
  }
}
