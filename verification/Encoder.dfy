/** Message tree to JSON tree: Pb2json and Field2json. */
module Encoder {
  import opened Common
  import opened Traversal
  import opened Dom
  import opened Protobuf

  // ----- The result as a function of the message -----

  // Bytes are not translated at all.
  function EncodeItem(pool: Pool, v: Val): seq<Value>
    decreases v
  {
    match v
    case VDouble(d) => [Num(Double(d))]
    case VFloat(f) => [Num(Double(pool.widen(f)))]
    case VInt32(i) => [Num(Integer(i))]
    case VUint32(i) => [Num(Integer(i))]
    case VInt64(i) => [Num(Integer(i))]
    case VUint64(i) => [Num(Integer(i))]
    case VBool(b) => [if b then True else False]
    case VString(s) => [Str(CStr(s))]
    case VBytes(_) => []
    case VEnum(i) => [Num(Integer(i % 0x1_0000_0000))]
    case VMsg(m) => [EncodeInto(pool, Obj([]), m).0]
  }

  function EncodeItems(pool: Pool, vals: seq<Val>): seq<Value>
    decreases vals
  {
    if vals == [] then [] else EncodeItem(pool, vals[0]) + EncodeItems(pool, vals[1..])
  }

  function EncodeSlot(pool: Pool, fd: Field, slot: Slot): seq<Member>
    decreases slot
  {
    if slot.vals == [] then []
    else if fd.repeated then [Member(fd.name, Arr(EncodeItems(pool, slot.vals)))]
    else
      var item := EncodeItem(pool, slot.vals[0]);
      if item == [] then [] else [Member(fd.name, item[0])]
  }

  function EncodeSlots(pool: Pool, fields: seq<Field>, slots: seq<Slot>): seq<Member>
    requires |fields| == |slots|
    decreases slots
  {
    if slots == [] then []
    else EncodeSlot(pool, fields[0], slots[0]) + EncodeSlots(pool, fields[1..], slots[1..])
  }

  // Pb2json on a DOM that holds `before`. What a nested call returns is ignored by the code.
  function EncodeInto(pool: Pool, before: Value, m: Msg): (Value, Code)
    decreases m
  {
    match m
    case Plain(typ, slots) =>
      if typ in pool.types && |pool.types[typ]| == |slots| then
        (Obj([Member("@type", Str(typ))] + EncodeSlots(pool, pool.types[typ], slots)), ZOK)
      else (before, ZPARAM_INVALID)
    case AnyOf(content) => (EncodeInto(pool, before, content).0, ZOK)
    case AnyRaw(_) => (before, ZCAST_FAIL)
  }

  // ----- The methods that compute it -----

  method Field2json(pool: Pool, json: RJson, fd: Field, v: Val) returns (ret: Code)
    requires ValidPool(pool) && ValConforms(pool, fd, v)
    requires fd.repeated ==> json.val.Arr?
    requires !fd.repeated ==> json.val.Obj? && FindMember(json.val.members, fd.name) == |json.val.members|
    modifies json
    ensures ret == ZOK
    ensures fd.repeated ==> json.val == Arr(old(json.val.items) + EncodeItem(pool, v))
    ensures !fd.repeated ==> json.val == Obj(old(json.val.members) + EncodeSlot(pool, fd, Slot([v])))
    decreases v
  {
    ret := ZOK;
    match v {
      case VDouble(d) => Write(json, fd, SetDouble, Num(Double(d)));
      case VFloat(f) => Write(json, fd, SetDouble, Num(Double(pool.widen(f))));
      case VInt64(i) => Write(json, fd, SetInt64, Num(Integer(i)));
      case VUint64(i) => Write(json, fd, SetUint64, Num(Integer(i)));
      case VInt32(i) => Write(json, fd, SetInt, Num(Integer(i)));
      case VUint32(i) => Write(json, fd, SetUint, Num(Integer(i)));
      case VBool(b) => Write(json, fd, SetBool, if b then True else False);
      case VString(s) => Write(json, fd, SetString, Str(CStr(s)));
      case VBytes(_) => // reported as unsupported, nothing is written and the code stays ZOK
      case VMsg(m) =>
        var js := new RJson(Null);
        js.SetObject();
        var _ := Pb2json(pool, js, m);
        if fd.repeated {
          json.PushBack(js.val);
        } else {
          var _ := json.AddMember(fd.name, js);
        }
      case VEnum(i) => Write(json, fd, SetUint, Num(Integer(i % 0x1_0000_0000)));
    }
  }

  // `repeated ? json->PushBack(val) : json->SetX(key, val)`
  method Write(json: RJson, fd: Field, setter: Setter, v: Value)
    requires fd.repeated ==> json.val.Arr?
    requires !fd.repeated ==> json.val.Obj?
    modifies json
    ensures fd.repeated ==> json.val == Arr(old(json.val.items) + [v])
    ensures !fd.repeated ==> json.val == Obj(PutScalar(setter, old(json.val.members), fd.name, v).0)
  {
    if fd.repeated {
      json.PushBack(v);
    } else {
      var _ := json.Set(setter, fd.name, v);
    }
  }

  // The loop of Pb2json over the values of a repeated field.
  method WriteItems(pool: Pool, jsArr: RJson, fd: Field, vals: seq<Val>) returns (ret: Code)
    requires ValidPool(pool) && fd.repeated && jsArr.val == Arr([])
    requires forall j :: 0 <= j < |vals| ==> ValConforms(pool, fd, vals[j])
    modifies jsArr
    ensures ret == ZOK && jsArr.val == Arr(EncodeItems(pool, vals))
    decreases vals
  {
    ret := ZOK;
    for j := 0 to |vals|
      invariant ret == ZOK && jsArr.val.Arr?
      invariant jsArr.val.items + EncodeItems(pool, vals[j..]) == EncodeItems(pool, vals)
    {
      assert vals[j..][1..] == vals[j + 1..];
      ret := Field2json(pool, jsArr, fd, vals[j]);
      if ret != ZOK {
        break;
      }
    }
    assert vals[|vals|..] == [];
  }

  // The loop body of Pb2json for one field that ListFields reports.
  method WriteField(pool: Pool, json: RJson, fd: Field, slot: Slot) returns (ret: Code)
    requires ValidPool(pool) && SlotConforms(pool, fd, slot) && slot.vals != []
    requires json.val.Obj? && FindMember(json.val.members, fd.name) == |json.val.members|
    modifies json
    ensures ret == ZOK
    ensures json.val == Obj(old(json.val.members) + EncodeSlot(pool, fd, slot))
    decreases slot
  {
    if fd.repeated {
      var jsArr := new RJson(Null);
      jsArr.SetArray();
      ret := WriteItems(pool, jsArr, fd, slot.vals);
      var _ := json.AddMember(fd.name, jsArr);
    } else {
      assert ValConforms(pool, fd, slot.vals[0]);
      assert slot.vals == [slot.vals[0]];
      ret := Field2json(pool, json, fd, slot.vals[0]);
    }
  }

  // The field loop of Pb2json.
  method WriteFields(pool: Pool, json: RJson, fields: seq<Field>, slots: seq<Slot>) returns (ret: Code)
    requires ValidPool(pool) && ValidFields(fields) && |fields| == |slots|
    requires forall i :: 0 <= i < |slots| ==> SlotConforms(pool, fields[i], slots[i])
    requires json.val.Obj? && Fresh(json.val.members, fields, 0)
    modifies json
    ensures ret == ZOK
    ensures json.val == Obj(old(json.val.members) + EncodeSlots(pool, fields, slots))
    decreases slots
  {
    ret := ZOK;
    ghost var done := json.val.members;
    ghost var whole := done + EncodeSlots(pool, fields, slots);
    assert fields[0..] == fields && slots[0..] == slots;
    for i := 0 to |fields|
      invariant ret == ZOK && json.val == Obj(done)
      invariant done + EncodeSlots(pool, fields[i..], slots[i..]) == whole
      invariant Fresh(done, fields, i)
    {
      FieldStep(pool, fields, slots[i], done, i);
      EncodeSlotsStep(pool, fields, slots, i, done);
      done := done + EncodeSlot(pool, fields[i], slots[i]);
      if |slots[i].vals| != 0 {
        ret := WriteField(pool, json, fields[i], slots[i]);
        if ret != ZOK {
          break;
        }
      }
    }
    assert fields[|fields|..] == [] && slots[|fields|..] == [];
  }

  method Pb2json(pool: Pool, json: RJson, pb: Msg) returns (ret: Code)
    requires ValidPool(pool) && Conforms(pool, pb)
    modifies json
    ensures (json.val, ret) == EncodeInto(pool, old(json.val), pb)
    ensures ret == if pb.AnyRaw? then ZCAST_FAIL else ZOK
    ensures pb.AnyRaw? ==> json.val == old(json.val)
    decreases pb
  {
    match pb {
      case AnyRaw(_) =>
        return ZCAST_FAIL;
      case AnyOf(content) =>
        var _ := Pb2json(pool, json, content);
        return ZOK;
      case Plain(typ, slots) =>
        json.SetObject();
        CStrIdentity(typ);
        var _ := json.Set(SetString, "@type", Str(CStr(typ)));
        assert json.val.members == [Member("@type", Str(typ))];
        ret := WriteFields(pool, json, pool.types[typ], slots);
    }
  }

  // None of the members has the name of a field from index `from` on.
  ghost predicate Fresh(members: seq<Member>, fields: seq<Field>, from: nat) {
    forall k, j :: 0 <= k < |members| && from <= j < |fields| ==> members[k].name != fields[j].name
  }

  lemma {:induction false} FieldStep(pool: Pool, fields: seq<Field>, slot: Slot, done: seq<Member>, i: nat)
    requires i < |fields| && ValidFields(fields) && Fresh(done, fields, i)
    ensures FindMember(done, fields[i].name) == |done|
    ensures Fresh(done + EncodeSlot(pool, fields[i], slot), fields, i + 1)
    ensures slot.vals == [] ==> done + EncodeSlot(pool, fields[i], slot) == done
  {
    var more := EncodeSlot(pool, fields[i], slot);
    assert forall k :: 0 <= k < |more| ==> more[k].name == fields[i].name;
  }

  lemma {:induction false} EncodeSlotsStep(pool: Pool, fields: seq<Field>, slots: seq<Slot>, i: nat, done: seq<Member>)
    requires i < |fields| == |slots|
    ensures done + EncodeSlots(pool, fields[i..], slots[i..])
         == done + EncodeSlot(pool, fields[i], slots[i]) + EncodeSlots(pool, fields[i + 1..], slots[i + 1..])
  {
    var first, rest := EncodeSlot(pool, fields[i], slots[i]), EncodeSlots(pool, fields[i + 1..], slots[i + 1..]);
    assert EncodeSlots(pool, fields[i..], slots[i..]) == first + rest by {
      assert fields[i..][1..] == fields[i + 1..] && slots[i..][1..] == slots[i + 1..];
    }
  }
}
