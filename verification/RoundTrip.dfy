/** What decoding an encoded message gives, for every message, and when it is that message. */
module RoundTrip {
  import opened Common
  import opened Traversal
  import opened Protobuf
  import opened Encoder
  import opened Decoder
  import opened BigStep

  // ----- The two things in a message that stop the decoder -----

  datatype Defect = NoDefect | EnumField | UnresolvedAny

  // The first of them in the order in which the encoder writes.
  function FirstDefect(m: Msg): Defect
    decreases m
  {
    match m
    case Plain(_, slots) => SlotsDefect(slots)
    case AnyOf(content) => FirstDefect(content)
    case AnyRaw(_) => UnresolvedAny
  }

  function SlotsDefect(slots: seq<Slot>): Defect
    decreases slots
  {
    if slots == [] then NoDefect
    else
      var d := ValsDefect(slots[0].vals);
      if d != NoDefect then d else SlotsDefect(slots[1..])
  }

  function ValsDefect(vals: seq<Val>): Defect
    decreases vals
  {
    if vals == [] then NoDefect
    else
      var d := ValDefect(vals[0]);
      if d != NoDefect then d else ValsDefect(vals[1..])
  }

  function ValDefect(v: Val): Defect
    decreases v
  {
    match v
    case VEnum(_) => EnumField
    case VMsg(m) => FirstDefect(m)
    case _ => NoDefect
  }

  // ----- What is left of a message without them -----

  // Bytes are lost, strings end at their first NUL, floats pass through double, a string cut to
  // nothing counts as unset, and chains of Any collapse to their innermost message.
  function Image(pool: Pool, m: Msg): Msg
    decreases m
  {
    match m
    case Plain(typ, slots) =>
      if typ in pool.types && |pool.types[typ]| == |slots| then Plain(typ, ImageSlots(pool, pool.types[typ], slots))
      else m
    case AnyOf(content) => Image(pool, content)
    case AnyRaw(_) => m
  }

  function ImageSlots(pool: Pool, fields: seq<Field>, slots: seq<Slot>): (r: seq<Slot>)
    requires |fields| == |slots|
    ensures |r| == |slots|
    decreases slots
  {
    if slots == [] then [] else [ImageSlot(pool, fields[0], slots[0])] + ImageSlots(pool, fields[1..], slots[1..])
  }

  function ImageSlot(pool: Pool, fd: Field, slot: Slot): Slot
    decreases slot
  {
    var vals := ImageVals(pool, slot.vals);
    if fd.repeated then Slot(vals)
    else if vals == [] then Slot([])
    else Store(fd, Slot([]), vals[0])
  }

  function ImageVals(pool: Pool, vals: seq<Val>): seq<Val>
    decreases vals
  {
    if vals == [] then []
    else (if vals[0].VBytes? then [] else [ImageVal(pool, vals[0])]) + ImageVals(pool, vals[1..])
  }

  function ImageVal(pool: Pool, v: Val): Val
    decreases v
  {
    match v
    case VFloat(f) => VFloat(pool.narrow(pool.widen(f)))
    case VString(s) => VString(CStr(s))
    case VMsg(m) => VMsg(if m.Plain? then Image(pool, m) else AnyOf(Image(pool, m)))
    case _ => v
  }

  // The message at the bottom of a chain of Any.
  function Core(m: Msg): Msg {
    match m
    case AnyOf(content) => Core(content)
    case _ => m
  }

  // ----- Reading back one value, one field, all fields -----

  // A message under construction: of that type, with a slot for every field.
  ghost predicate Building(pool: Pool, typ: string, p: Msg) {
    p.Plain? && p.typ == typ && typ in pool.types && |p.slots| == |pool.types[typ]|
  }

  // Run reads a part of the encoding whose first defect is `defect`; without one it leaves `done`.
  ghost predicate ReadsBack(pool: Pool, typ: string, defect: Defect, run: Run<Option<Msg>>, done: Msg) {
    match defect
    case NoDefect => run == Ran(Some(done), ZOK)
    case EnumField => run.Ran? && run.code == ZCAST_FAIL && run.value.Some? && Building(pool, typ, run.value.value)
    case UnresolvedAny => run == Crash
  }

  lemma {:induction false} RunAppend(pool: Pool, om: Option<Msg>, a: seq<Member>, b: seq<Member>)
    ensures
      RunMembers(pool, om, a + b) ==
      var r := RunMembers(pool, om, a);
      if r.Crash? || r.code != ZOK then r else RunMembers(pool, r.value, b)
    decreases |a|
  {
    if a == [] {
      assert a + b == b;
    } else {
      assert (a + b)[1..] == a[1..] + b;
      var r := RunMember(pool, om, CStr(a[0].name), a[0].value);
      if r.Ran? && r.code == ZOK {
        RunAppend(pool, r.value, a[1..], b);
      }
    }
  }

  lemma {:induction false} FieldFound(pool: Pool, typ: string, p: Msg, i: nat)
    requires ValidPool(pool) && Building(pool, typ, p) && i < |p.slots|
    ensures FieldOf(pool, p, pool.types[typ][i].name) == Some(i)
    ensures CStr(pool.types[typ][i].name) == pool.types[typ][i].name
    ensures !IsAtName(pool.types[typ][i].name)
  {
    var fields := pool.types[typ];
    assert ValidFields(fields);
    var k := FindField(fields, fields[i].name);
    assert k <= i;
    CStrIdentity(fields[i].name);
  }

  // A scalar written by the encoder is accepted by the field it came from.
  lemma {:induction false} LeafReadsBack(pool: Pool, typ: string, p: Msg, i: nat, v: Val)
    requires ValidPool(pool) && Building(pool, typ, p) && i < |p.slots|
    requires ValConforms(pool, pool.types[typ][i], v) && !v.VMsg? && !v.VBytes?
    ensures
      ReadsBack(pool, typ, ValDefect(v), RunLeaf(pool, Some(p), pool.types[typ][i].name, EncodeItem(pool, v)[0]),
                StoreAt(pool, p, i, ImageVal(pool, v)))
  {
    FieldFound(pool, typ, p, i);
    if v.VString? {
      CStrIdempotent(v.s);
    }
  }

  // The members of the object written for a message value.
  function Written(pool: Pool, m: Msg): seq<Member> {
    var r := EncodeInto(pool, Obj([]), m).0;
    if r.Obj? then r.members else []
  }

  lemma {:induction false} WrittenCore(pool: Pool, before: Value, m: Msg)
    requires Conforms(pool, m)
    ensures EncodeInto(pool, before, m).0 == EncodeInto(pool, before, Core(m)).0
    ensures Conforms(pool, Core(m)) && !Core(m).AnyOf?
    ensures FirstDefect(m) == FirstDefect(Core(m)) && Image(pool, m) == Image(pool, Core(m))
    ensures m.AnyOf? ==> Core(m) < m
    decreases m
  {
    if m.AnyOf? {
      WrittenCore(pool, before, m.content);
    }
  }

  // Merging a child that was read back, under either of the two ways it is keyed.
  lemma {:induction false} MergeReadsBack(pool: Pool, typ: string, p: Msg, i: nat, v: Val, key: Option<string>)
    requires ValidPool(pool) && Building(pool, typ, p) && i < |p.slots|
    requires v.VMsg? && ValConforms(pool, pool.types[typ][i], v)
    requires key.Some? ==> key.value == pool.types[typ][i].name
    requires key.None? ==> Core(v.m).AnyRaw?
    requires
      if Core(v.m).AnyRaw? then Written(pool, v.m) == []
      else ReadsBack(pool, TypeName(Core(v.m)), FirstDefect(v.m),
                     RunMembers(pool, None, Written(pool, v.m)), Image(pool, v.m))
    ensures
      ReadsBack(pool, typ, ValDefect(v), RunObject(pool, Some(p), key, RunMembers(pool, None, Written(pool, v.m))),
                StoreAt(pool, p, i, ImageVal(pool, v)))
  {
    FieldFound(pool, typ, p, i);
    WrittenCore(pool, Obj([]), v.m);
  }

  // One value, read either as a member or as an array element.
  lemma {:induction false} ValReadsBack(pool: Pool, typ: string, p: Msg, i: nat, v: Val)
    requires ValidPool(pool) && Building(pool, typ, p) && i < |p.slots|
    requires ValConforms(pool, pool.types[typ][i], v) && !v.VBytes?
    ensures
      var name, item := pool.types[typ][i].name, EncodeItem(pool, v);
      var done := StoreAt(pool, p, i, ImageVal(pool, v));
      && |item| == 1 && !item[0].Arr?
      && ReadsBack(pool, typ, ValDefect(v), RunMember(pool, Some(p), name, item[0]), done)
      && ReadsBack(pool, typ, ValDefect(v), RunItem(pool, Some(p), name, item[0]), done)
    decreases v, 1
  {
    FieldFound(pool, typ, p, i);
    if v.VMsg? {
      NestedReadsBack(pool, v.m);
      WrittenIsObject(pool, v.m);
      MergeReadsBack(pool, typ, p, i, v, Some(pool.types[typ][i].name));
      if Core(v.m).AnyRaw? {
        MergeReadsBack(pool, typ, p, i, v, None);
      } else {
        MergeReadsBack(pool, typ, p, i, v, Some(pool.types[typ][i].name));
      }
    } else {
      LeafReadsBack(pool, typ, p, i, v);
    }
  }

  lemma {:induction false} WrittenIsObject(pool: Pool, m: Msg)
    requires Conforms(pool, m)
    ensures EncodeItem(pool, VMsg(m)) == [Obj(Written(pool, m))]
  {
    WrittenCore(pool, Obj([]), m);
  }

  lemma {:induction false} NestedReadsBack(pool: Pool, m: Msg)
    requires ValidPool(pool) && Conforms(pool, m)
    ensures
      if Core(m).AnyRaw? then Written(pool, m) == []
      else ReadsBack(pool, TypeName(Core(m)), FirstDefect(m), RunMembers(pool, None, Written(pool, m)), Image(pool, m))
    decreases m, 1
  {
    WrittenCore(pool, Obj([]), m);
    if !Core(m).AnyRaw? {
      MessageReadsBack(pool, Core(m));
    }
  }

  lemma {:induction false} ItemsReadBack(pool: Pool, typ: string, p: Msg, i: nat, vals: seq<Val>)
    requires ValidPool(pool) && Building(pool, typ, p) && i < |p.slots|
    requires pool.types[typ][i].repeated
    requires forall j :: 0 <= j < |vals| ==> ValConforms(pool, pool.types[typ][i], vals[j])
    ensures
      ReadsBack(pool, typ, ValsDefect(vals), RunItems(pool, Some(p), pool.types[typ][i].name, EncodeItems(pool, vals)),
                p.(slots := p.slots[i := Slot(p.slots[i].vals + ImageVals(pool, vals))]))
    decreases vals, 0
  {
    var name := pool.types[typ][i].name;
    if vals == [] {
      assert p.slots[i].vals + [] == p.slots[i].vals;
      assert p.slots[i := Slot(p.slots[i].vals)] == p.slots;
    } else if vals[0].VBytes? {
      assert EncodeItems(pool, vals) == EncodeItems(pool, vals[1..]);
      assert ImageVals(pool, vals) == ImageVals(pool, vals[1..]);
      assert ValsDefect(vals) == ValsDefect(vals[1..]);
      ItemsReadBack(pool, typ, p, i, vals[1..]);
    } else {
      var v := vals[0];
      ValReadsBack(pool, typ, p, i, v);
      var items := EncodeItems(pool, vals);
      assert items[0] == EncodeItem(pool, v)[0] && items[1..] == EncodeItems(pool, vals[1..]);
      if ValDefect(v) == NoDefect {
        var p' := StoreAt(pool, p, i, ImageVal(pool, v));
        ItemsReadBack(pool, typ, p', i, vals[1..]);
        assert p'.slots[i].vals + ImageVals(pool, vals[1..]) == p.slots[i].vals + ImageVals(pool, vals);
        assert p'.slots[i := Slot(p.slots[i].vals + ImageVals(pool, vals))]
           == p.slots[i := Slot(p.slots[i].vals + ImageVals(pool, vals))];
      }
    }
  }

  lemma {:induction false} SlotReadsBack(pool: Pool, typ: string, p: Msg, i: nat, slot: Slot)
    requires ValidPool(pool) && Building(pool, typ, p) && i < |p.slots| && p.slots[i] == Slot([])
    requires SlotConforms(pool, pool.types[typ][i], slot)
    ensures
      ReadsBack(pool, typ, ValsDefect(slot.vals), RunMembers(pool, Some(p), EncodeSlot(pool, pool.types[typ][i], slot)),
                p.(slots := p.slots[i := ImageSlot(pool, pool.types[typ][i], slot)]))
    decreases slot, 1
  {
    var fd, vals := pool.types[typ][i], slot.vals;
    FieldFound(pool, typ, p, i);
    assert p.slots[i := Slot([])] == p.slots;
    if vals != [] {
      if fd.repeated {
        ItemsReadBack(pool, typ, p, i, vals);
        assert [] + ImageVals(pool, vals) == ImageVals(pool, vals);
      } else {
        assert vals == [vals[0]] && vals[1..] == [];
        assert ValsDefect(vals) == ValDefect(vals[0]);
        if !vals[0].VBytes? {
          ValReadsBack(pool, typ, p, i, vals[0]);
        }
      }
    }
  }

  lemma {:induction false} SlotsReadBack(pool: Pool, typ: string, p: Msg, i: nat, slots: seq<Slot>)
    requires ValidPool(pool) && Building(pool, typ, p) && i + |slots| == |p.slots|
    requires forall k :: i <= k < |p.slots| ==> p.slots[k] == Slot([])
    requires forall k :: 0 <= k < |slots| ==> SlotConforms(pool, pool.types[typ][i + k], slots[k])
    ensures
      ReadsBack(pool, typ, SlotsDefect(slots),
                RunMembers(pool, Some(p), EncodeSlots(pool, pool.types[typ][i..], slots)),
                p.(slots := p.slots[..i] + ImageSlots(pool, pool.types[typ][i..], slots)))
    decreases slots, 0
  {
    var fields := pool.types[typ];
    if slots == [] {
      assert p.slots[..i] + [] == p.slots;
    } else {
      assert fields[i..][0] == fields[i] && fields[i..][1..] == fields[i + 1..];
      assert SlotConforms(pool, fields[i + 0], slots[0]);
      SlotReadsBack(pool, typ, p, i, slots[0]);
      RunAppend(pool, Some(p), EncodeSlot(pool, fields[i], slots[0]), EncodeSlots(pool, fields[i + 1..], slots[1..]));
      if ValsDefect(slots[0].vals) == NoDefect {
        var image := ImageSlot(pool, fields[i], slots[0]);
        var p' := p.(slots := p.slots[i := image]);
        forall k | 0 <= k < |slots[1..]| ensures SlotConforms(pool, fields[i + 1 + k], slots[1..][k]) {
          assert SlotConforms(pool, fields[i + (k + 1)], slots[k + 1]);
        }
        SlotsReadBack(pool, typ, p', i + 1, slots[1..]);
        assert p'.slots[..i + 1] == p.slots[..i] + [image];
        assert p.slots[..i] + [image] + ImageSlots(pool, fields[i + 1..], slots[1..])
            == p.slots[..i] + ImageSlots(pool, fields[i..], slots);
      }
    }
  }

  lemma {:induction false} TagIsAtName()
    ensures CStr("@type") == "@type" && IsAtName("@type")
  {
    CStrIdentity("@type");
  }

  lemma {:induction false} TagCreates(pool: Pool, typ: string, rest: seq<Member>)
    requires ValidPool(pool) && typ in pool.types
    ensures RunMembers(pool, None, [Member("@type", Str(typ))] + rest) == RunMembers(pool, Some(New(pool, typ)), rest)
  {
    TagIsAtName();
    CStrIdentity(typ);
    var tag := Member("@type", Str(typ));
    assert ([tag] + rest)[0] == tag && ([tag] + rest)[1..] == rest;
    assert RunMember(pool, None, CStr(tag.name), tag.value) == Ran(Some(New(pool, typ)), ZOK);
  }

  /** Reading the object written for a message of a proper type: it gives the message's image,
      stops at the first enum value, or reaches undefined behaviour at the first unresolved Any. */
  lemma {:induction false} MessageReadsBack(pool: Pool, m: Msg)
    requires ValidPool(pool) && Conforms(pool, m) && m.Plain?
    ensures ReadsBack(pool, m.typ, FirstDefect(m), RunMembers(pool, None, Written(pool, m)), Image(pool, m))
    decreases m, 0
  {
    var fields, p := pool.types[m.typ], New(pool, m.typ);
    TagCreates(pool, m.typ, EncodeSlots(pool, fields, m.slots));
    assert fields[0..] == fields;
    SlotsReadBack(pool, m.typ, p, 0, m.slots);
    assert p.slots[..0] + ImageSlots(pool, fields, m.slots) == ImageSlots(pool, fields, m.slots);
  }
}
