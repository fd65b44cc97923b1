/** The DOM object the encoder writes into: RJson's setters, AddMember and PushBack. */
module Dom {
  import opened Common
  import opened Traversal

  const INT32_MIN := -0x8000_0000
  const INT32_MAX := 0x7FFF_FFFF
  const UINT32_MAX := 0xFFFF_FFFF
  const INT64_MIN := -0x8000_0000_0000_0000
  const INT64_MAX := 0x7FFF_FFFF_FFFF_FFFF
  const UINT64_MAX := 0xFFFF_FFFF_FFFF_FFFF

  predicate IsInt(v: Value) { v.Num? && v.num.Integer? && INT32_MIN <= v.num.i <= INT32_MAX }
  predicate IsUint(v: Value) { v.Num? && v.num.Integer? && 0 <= v.num.i <= UINT32_MAX }
  predicate IsInt64(v: Value) { v.Num? && v.num.Integer? && INT64_MIN <= v.num.i <= INT64_MAX }
  predicate IsUint64(v: Value) { v.Num? && v.num.Integer? && 0 <= v.num.i <= UINT64_MAX }
  predicate IsDouble(v: Value) { v.Num? && v.num.Double? }

  // The scalar setters differ only in the type an existing member must already have.
  datatype Setter = SetInt | SetUint | SetInt64 | SetUint64 | SetDouble | SetBool | SetString

  predicate Accepts(setter: Setter, existing: Value) {
    match setter
    case SetInt => IsInt(existing)
    case SetUint => IsUint(existing)
    case SetInt64 => IsInt64(existing)
    case SetUint64 => IsUint64(existing)
    case SetDouble => IsDouble(existing)
    case SetBool => existing.True? || existing.False?
    case SetString => existing.Str?
  }

  // rapidjson's FindMember: the first member of that name, or the end.
  function FindMember(members: seq<Member>, key: string): (i: nat)
    ensures i <= |members|
    ensures i < |members| ==> members[i].name == key
    ensures forall j :: 0 <= j < i ==> members[j].name != key
  {
    First(members, (m: Member) => m.name == key)
  }

  function Lookup(members: seq<Member>, key: string): Option<Value> {
    var i := FindMember(members, key);
    if i < |members| then Some(members[i].value) else None
  }

  ghost predicate DistinctNames(members: seq<Member>) {
    forall i, j :: 0 <= i < j < |members| ==> members[i].name != members[j].name
  }

  function PutScalar(setter: Setter, members: seq<Member>, key: string, v: Value): (seq<Member>, Code) {
    var i := FindMember(members, key);
    if i == |members| then (members + [Member(key, v)], ZOK)
    else if Accepts(setter, members[i].value) then (members[i := Member(members[i].name, v)], ZOK)
    else (members, ZCAST_FAIL)
  }

  function PutMember(members: seq<Member>, key: string, v: Value): (seq<Member>, Code) {
    var i := FindMember(members, key);
    if i == |members| then (members + [Member(key, v)], ZOK)
    else if !IsLeaf(members[i].value) then (members[..i] + members[i + 1..] + [Member(key, v)], ZOK)
    else (members, ZCAST_FAIL)
  }

  // With distinct names a lookup finds a member wherever it stands.
  lemma {:induction false} LookupUnique(members: seq<Member>, i: nat)
    requires DistinctNames(members) && i < |members|
    ensures Lookup(members, members[i].name) == Some(members[i].value)
  {
    var j := FindMember(members, members[i].name);
    assert j <= i;
  }

  // A lookup that succeeds also succeeds in any list that holds the members of that name.
  lemma {:induction false} LookupKept(a: seq<Member>, b: seq<Member>, key: string)
    requires DistinctNames(b) && Lookup(a, key).Some?
    requires forall m: Member :: m.name == key && m in a ==> m in b
    ensures Lookup(b, key) == Lookup(a, key)
  {
    var i := FindMember(a, key);
    assert a[i] in b;
    var k :| 0 <= k < |b| && b[k] == a[i];
    LookupUnique(b, k);
  }

  // Two lists that hold the same members of one name agree on the lookup.
  lemma {:induction false} LookupAgrees(a: seq<Member>, b: seq<Member>, key: string)
    requires DistinctNames(a) && DistinctNames(b)
    requires forall m: Member :: m.name == key ==> (m in a <==> m in b)
    ensures Lookup(a, key) == Lookup(b, key)
  {
    if Lookup(a, key).Some? {
      LookupKept(a, b, key);
    } else if Lookup(b, key).Some? {
      LookupKept(b, a, key);
    }
  }

  lemma {:induction false} PutMemberKeeps(members: seq<Member>, key: string, v: Value, m: Member)
    requires m.name != key && PutMember(members, key, v).1 == ZOK
    ensures m in members <==> m in PutMember(members, key, v).0
  {
    var i := FindMember(members, key);
    if m in members {
      var k :| 0 <= k < |members| && members[k] == m;
      assert PutMember(members, key, v).0[if k < i then k else k - 1] == m;
    }
  }

  // The key comes last, and the other members before it in the order they had.
  ghost predicate MovedToEnd(members: seq<Member>, after: seq<Member>, key: string) {
    var i := FindMember(members, key);
    && |after| == (if i < |members| then |members| else |members| + 1) && after[|after| - 1].name == key
    && forall k :: 0 <= k < |after| - 1 ==> after[k] == members[if k < i then k else k + 1]
  }

  /** A write either stores the value under its key, keeps every other key and keeps the names
      distinct, or is refused with ZCAST_FAIL and changes nothing; it is refused exactly when
      the key holds a value the setter may not replace. */
  lemma {:induction false} PutMemberStores(members: seq<Member>, key: string, v: Value)
    requires DistinctNames(members)
    ensures
      var (after, code) := PutMember(members, key, v);
      && DistinctNames(after)
      && (code == ZCAST_FAIL <==> Lookup(members, key).Some? && IsLeaf(Lookup(members, key).value))
      && (code == ZCAST_FAIL ==> after == members)
      && (code != ZCAST_FAIL ==> code == ZOK && Lookup(after, key) == Some(v) && MovedToEnd(members, after, key))
      && forall other :: other != key ==> Lookup(after, other) == Lookup(members, other)
  {
    var (after, code) := PutMember(members, key, v);
    if code == ZOK {
      LookupUnique(after, |after| - 1);
      forall other | other != key ensures Lookup(after, other) == Lookup(members, other) {
        forall m: Member | m.name == other ensures m in members <==> m in after {
          PutMemberKeeps(members, key, v, m);
        }
        LookupAgrees(after, members, other);
      }
    }
  }

  // The values that a setter may replace: those it could itself have written. The bounds are those
  // of 32 and 64 bits.
  predicate Writable(setter: Setter, v: Value) {
    match setter
    case SetDouble => v.Num? && v.num.Double?
    case SetBool => v == True || v == False
    case SetString => v.Str?
    case _ =>
      && v.Num? && v.num.Integer?
      && var i := v.num.i;
      match setter
      case SetInt => -2147483648 <= i < 2147483648
      case SetUint => 0 <= i < 4294967296
      case SetInt64 => -9223372036854775808 <= i < 9223372036854775808
      case _ => 0 <= i < 18446744073709551616
  }

  /** The same for the scalar setters; each may replace exactly what it could have written itself. */
  lemma {:induction false} PutScalarStores(setter: Setter, members: seq<Member>, key: string, v: Value)
    requires DistinctNames(members)
    ensures
      var (after, code) := PutScalar(setter, members, key, v);
      && DistinctNames(after)
      && (code == ZCAST_FAIL <==> Lookup(members, key).Some? && !Writable(setter, Lookup(members, key).value))
      && (code == ZCAST_FAIL ==> after == members)
      && (code != ZCAST_FAIL ==> code == ZOK && Lookup(after, key) == Some(v))
      && |members| <= |after| && (forall k :: 0 <= k < |members| ==> after[k].name == members[k].name)
      && forall other :: other != key ==> Lookup(after, other) == Lookup(members, other)
  {
    var (after, code) := PutScalar(setter, members, key, v);
    if code == ZOK {
      var i := FindMember(members, key);
      LookupUnique(after, i);
      forall other | other != key ensures Lookup(after, other) == Lookup(members, other) {
        assert forall m: Member :: m.name == other && m in members ==> m in after by {
          forall m: Member | m.name == other && m in members ensures m in after {
            var k :| 0 <= k < |members| && members[k] == m;
            assert after[k] == m;
          }
        }
        LookupAgrees(after, members, other);
      }
    }
  }

  class RJson {
    var val: Value

    constructor (v: Value)
      ensures val == v
    {
      val := v;
    }

    method SetObject()
      modifies this
      ensures val == Obj([])
    {
      val := Obj([]);
    }

    method SetArray()
      modifies this
      ensures val == Arr([])
    {
      val := Arr([]);
    }

    method Set(setter: Setter, key: string, v: Value) returns (ret: Code)
      requires val.Obj?
      modifies this
      ensures val.Obj? && (val.members, ret) == PutScalar(setter, old(val.members), key, v)
    {
      var itr := FindMember(val.members, key);
      if itr != |val.members| {
        if Accepts(setter, val.members[itr].value) {
          val := Obj(val.members[itr := Member(val.members[itr].name, v)]);
        } else {
          return ZCAST_FAIL;
        }
      } else {
        val := Obj(val.members + [Member(key, v)]);
      }
      return ZOK;
    }

    // The added tree is moved, which leaves null behind in its source.
    method AddMember(key: string, js: RJson) returns (ret: Code)
      requires val.Obj? && js != this
      modifies this, js
      ensures val.Obj? && (val.members, ret) == PutMember(old(val.members), key, old(js.val))
      ensures js.val == if ret == ZOK then Null else old(js.val)
    {
      var itr := FindMember(val.members, key);
      if itr != |val.members| {
        if !IsLeaf(val.members[itr].value) {
          val := Obj(val.members[..itr] + val.members[itr + 1..]);
          val := Obj(val.members + [Member(key, js.val)]);
        } else {
          return ZCAST_FAIL;
        }
      } else {
        val := Obj(val.members + [Member(key, js.val)]);
      }
      js.val := Null;
      return ZOK;
    }

    method PushBack(v: Value)
      requires val.Arr?
      modifies this
      ensures val == Arr(old(val.items) + [v])
    {
      val := Arr(val.items + [v]);
    }
  }
}
