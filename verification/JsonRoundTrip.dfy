/** Round trips that start from a document: what is decoded is encoded and decoded again. */
module JsonRoundTrip {
  import opened Common
  import opened Traversal
  import opened Dom
  import opened Protobuf
  import opened Decoder
  import opened Translation
  import opened FittingJson

  // A message without bytes, and without a float that double does not give back, at any depth.
  ghost predicate Steady(pool: Pool, m: Msg)
    decreases m
  {
    match m
    case Plain(_, slots) => forall i :: 0 <= i < |slots| ==> SteadySlot(pool, slots[i])
    case AnyOf(content) => Steady(pool, content)
    case AnyRaw(_) => true
  }

  ghost predicate SteadySlot(pool: Pool, slot: Slot)
    decreases slot
  {
    forall j :: 0 <= j < |slot.vals| ==> SteadyVal(pool, slot.vals[j])
  }

  ghost predicate SteadyVal(pool: Pool, val: Val)
    decreases val
  {
    && !val.VBytes?
    && (val.VFloat? ==> pool.narrow(pool.widen(val.f)) == val.f)
    && (val.VMsg? ==> Steady(pool, val.m))
  }

  // Every double that was narrowed to a float is one that widening and narrowing keep.
  ghost predicate NarrowsOnce(pool: Pool) {
    forall d :: pool.narrow(pool.widen(pool.narrow(d))) == pool.narrow(d)
  }

  // For a value that was read, being steady is all that being faithful takes; `clean` tells that
  // the document has no bytes and narrowing is done once.
  ghost predicate ReadSteady(pool: Pool, clean: bool, val: Val) {
    && (FaithfulVal(pool, val) <==> SteadyVal(pool, val))
    && (clean ==> SteadyVal(pool, val))
  }

  ghost predicate AllReadSteady(pool: Pool, clean: bool, vals: seq<Val>) {
    forall j :: 0 <= j < |vals| ==> ReadSteady(pool, clean, vals[j])
  }

  lemma {:induction false} ValSteady(pool: Pool, clean: bool, kind: Kind, v: Value)
    requires ValidPool(pool) && Readable(pool, kind, v) && !Holds(pool, KEnum, kind, v)
    requires clean ==> NarrowsOnce(pool) && !Holds(pool, KBytes, kind, v)
    ensures AllReadSteady(pool, clean, Listed(ReadVal(pool, kind, v)))
    decreases v, 1
  {
    if v.Obj? {
      ObjectSteady(pool, clean, if kind.typ == NAME_ANY then None else Some(kind.typ), v.members);
      MessageSteady(pool, clean, ReadObject(pool, v.members));
    } else {
      LeafSteady(pool, clean, kind, v);
    }
  }

  lemma {:induction false} LeafSteady(pool: Pool, clean: bool, kind: Kind, v: Value)
    requires Readable(pool, kind, v) && !Holds(pool, KEnum, kind, v) && IsLeaf(v)
    requires clean ==> NarrowsOnce(pool) && !Holds(pool, KBytes, kind, v)
    ensures AllReadSteady(pool, clean, Listed(ReadVal(pool, kind, v)))
  {
    match v
    case Str(s) => CStrHasNoNul(s);
    case Num(Double(d)) => assert clean ==> pool.narrow(pool.widen(pool.narrow(d))) == pool.narrow(d);
    case _ =>
  }

  lemma {:induction false} MessageSteady(pool: Pool, clean: bool, m: Msg)
    requires m.Plain? && (Faithful(pool, m) <==> Steady(pool, m)) && (clean ==> Steady(pool, m))
    ensures ReadSteady(pool, clean, VMsg(m)) && ReadSteady(pool, clean, VMsg(AnyOf(m)))
  {
  }

  lemma {:induction false} SlotSteady(pool: Pool, clean: bool, slot: Slot)
    requires AllReadSteady(pool, clean, slot.vals)
    ensures FaithfulSlot(pool, slot) <==> SteadySlot(pool, slot)
    ensures clean ==> SteadySlot(pool, slot)
  {
    assert forall j :: 0 <= j < |slot.vals| ==> ReadSteady(pool, clean, slot.vals[j]);
  }

  lemma {:induction false} ItemsSteady(pool: Pool, clean: bool, kind: Kind, items: seq<Value>)
    requires ValidPool(pool) && !ItemsHold(pool, KEnum, kind, items)
    requires forall j :: 0 <= j < |items| ==> Readable(pool, kind, items[j])
    requires clean ==> NarrowsOnce(pool) && !ItemsHold(pool, KBytes, kind, items)
    ensures AllReadSteady(pool, clean, ReadItems(pool, kind, items))
    decreases items, 0
  {
    if items != [] {
      FirstItem(pool, KEnum, kind, items);
      FirstItem(pool, KBytes, kind, items);
      ValSteady(pool, clean, kind, items[0]);
      ItemsSteady(pool, clean, kind, items[1..]);
    }
  }

  lemma {:induction false} GainSteady(pool: Pool, clean: bool, fd: Field, vals: seq<Val>)
    requires AllReadSteady(pool, clean, vals)
    ensures AllReadSteady(pool, clean, Gain(fd, Slot([]), vals).vals)
  {
    var slot := Gain(fd, Slot([]), vals);
    forall j | 0 <= j < |slot.vals| ensures ReadSteady(pool, clean, slot.vals[j]) {
      assert ReadSteady(pool, clean, vals[if fd.repeated then j else |vals| - 1]);
    }
  }

  lemma {:induction false} MemberSteady(pool: Pool, clean: bool, fields: seq<Field>, m: Member)
    requires ValidPool(pool) && ReadableMember(pool, fields, m) && FindField(fields, m.name) < |fields|
    requires !MemberHolds(pool, KEnum, fields, m)
    requires clean ==> NarrowsOnce(pool) && !MemberHolds(pool, KBytes, fields, m)
    ensures AllReadSteady(pool, clean, ReadMember(pool, fields[FindField(fields, m.name)], m).vals)
    decreases m, 0
  {
    var fd := fields[FindField(fields, m.name)];
    if m.value.Arr? {
      ItemsSteady(pool, clean, fd.kind, m.value.items);
      GainSteady(pool, clean, fd, ReadItems(pool, fd.kind, m.value.items));
    } else {
      ValSteady(pool, clean, fd.kind, m.value);
      GainSteady(pool, clean, fd, Listed(ReadVal(pool, fd.kind, m.value)));
    }
  }

  lemma {:induction false} ObjectSteady(pool: Pool, clean: bool, expected: Option<string>, members: seq<Member>)
    requires ValidPool(pool) && ReadableObject(pool, expected, members) && !ObjectHolds(pool, KEnum, members)
    requires clean ==> NarrowsOnce(pool) && !ObjectHolds(pool, KBytes, members)
    ensures ReadObject(pool, members).Plain?
    ensures Faithful(pool, ReadObject(pool, members)) <==> Steady(pool, ReadObject(pool, members))
    ensures clean ==> Steady(pool, ReadObject(pool, members))
    decreases members, 0
  {
    var fields := pool.types[members[0].value.str];
    var slots := ReadObject(pool, members).slots;
    forall i | 0 <= i < |fields|
      ensures FaithfulSlot(pool, slots[i]) <==> SteadySlot(pool, slots[i])
      ensures clean ==> SteadySlot(pool, slots[i])
    {
      assert ValidFields(fields) && IsIdentifier(fields[i].name) && FindField(fields, fields[i].name) == i;
      var k := FindMember(members, fields[i].name);
      assert slots[i] == ReadField(pool, fields[i], members);
      if k < |members| {
        assert k > 0 && members[k].name == fields[i].name;
        MemberSteady(pool, clean, fields, members[k]);
      }
      SlotSteady(pool, clean, slots[i]);
    }
  }

  /** The other round trip. What a fitting document without an enum value decodes to is given back
      by encoding and decoding it again if and only if it holds no bytes and no float that double
      does not give back. That is so for every such document that puts nothing into a bytes field,
      if floats that come from a double are kept. */
  lemma {:induction false} DecodedRoundTrips(pool: Pool, members: seq<Member>)
    requires ValidPool(pool) && ReadableObject(pool, None, members) && !ObjectHolds(pool, KEnum, members)
    ensures
      var r := Decode(pool, Obj(members));
      && r.Returned? && r.code == ZOK && r.pb.Some?
      && (ThereAndBack(pool, r.pb.value) == r <==> Steady(pool, r.pb.value))
      && (NarrowsOnce(pool) && !ObjectHolds(pool, KBytes, members) ==> ThereAndBack(pool, r.pb.value) == r)
  {
    FittingJsonDecodes(pool, members);
    ReadObjectConforms(pool, None, members);
    RoundTripExactly(pool, ReadObject(pool, members));
    ObjectSteady(pool, NarrowsOnce(pool) && !ObjectHolds(pool, KBytes, members), None, members);
  }
}
