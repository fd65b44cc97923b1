/** The order of the members in a document makes no difference. */
module MemberOrder {
  import opened Common
  import opened Traversal
  import opened Dom
  import opened Protobuf
  import opened Decoder
  import opened FittingJson

  // The same document, but for the order of the members in its objects, at every depth.
  ghost predicate Reordered(a: Value, b: Value)
    decreases a
  {
    match a
    case Obj(members) => b.Obj? && MembersReordered(members, b.members)
    case Arr(items) =>
      b.Arr? && |items| == |b.items| && forall j :: 0 <= j < |items| ==> Reordered(items[j], b.items[j])
    case _ => a == b
  }

  ghost predicate MembersReordered(a: seq<Member>, b: seq<Member>)
    decreases a
  {
    && (forall k :: 0 <= k < |b| ==> FindMember(a, b[k].name) < |a|)
    && (forall k :: 0 <= k < |a| ==> FindMember(b, a[k].name) < |b| && Reordered(a[k].value, Same(b, a[k]).value))
  }

  // The member of the same name.
  function Same(b: seq<Member>, m: Member): Member
    requires FindMember(b, m.name) < |b|
  {
    b[FindMember(b, m.name)]
  }

  lemma {:induction false} SameVal(pool: Pool, what: Kind, kind: Kind, a: Value, b: Value)
    requires ValidPool(pool) && Readable(pool, kind, a) && Readable(pool, kind, b) && Reordered(a, b)
    ensures ReadVal(pool, kind, a) == ReadVal(pool, kind, b)
    ensures Holds(pool, what, kind, a) <==> Holds(pool, what, kind, b)
    decreases a, 2
  {
    if a.Obj? {
      SameObject(pool, what, a.members, b.members);
    }
  }

  lemma {:induction false} SameItems(pool: Pool, what: Kind, kind: Kind, a: seq<Value>, b: seq<Value>)
    requires ValidPool(pool) && |a| == |b|
    requires forall j :: 0 <= j < |a| ==>
      Readable(pool, kind, a[j]) && Readable(pool, kind, b[j]) && Reordered(a[j], b[j])
    ensures ReadItems(pool, kind, a) == ReadItems(pool, kind, b)
    ensures ItemsHold(pool, what, kind, a) <==> ItemsHold(pool, what, kind, b)
    decreases a, 0
  {
    if a != [] {
      SameVal(pool, what, kind, a[0], b[0]);
      SameItems(pool, what, kind, a[1..], b[1..]);
      FirstItem(pool, what, kind, a);
      FirstItem(pool, what, kind, b);
    }
  }

  lemma {:induction false} SameMember(pool: Pool, what: Kind, fields: seq<Field>, a: Member, b: Member)
    requires ValidPool(pool) && ReadableMember(pool, fields, a) && ReadableMember(pool, fields, b)
    requires a.name == b.name && Reordered(a.value, b.value)
    ensures
      var i := FindField(fields, a.name);
      i < |fields| ==> ReadMember(pool, fields[i], a) == ReadMember(pool, fields[i], b)
    ensures MemberHolds(pool, what, fields, a) <==> MemberHolds(pool, what, fields, b)
    decreases a, 0
  {
    var i := FindField(fields, a.name);
    if i < |fields| && a.value.Arr? {
      SameItems(pool, what, fields[i].kind, a.value.items, b.value.items);
    } else if i < |fields| {
      SameVal(pool, what, fields[i].kind, a.value, b.value);
    } else if a.value.Obj? {
      SameObject(pool, what, a.value.members, b.value.members);
    }
  }

  lemma {:induction false} TagIsNoField(pool: Pool, fields: seq<Field>, m: Member)
    requires ValidFields(fields) && IsAtName(m.name)
    ensures FindField(fields, m.name) == |fields|
    ensures ReadableMember(pool, fields, m) ==> m.value.Null?
  {
    var i := FindField(fields, m.name);
    assert i < |fields| ==> IsIdentifier(fields[i].name);
    assert !Dropped(pool, fields, m);
  }

  // Two objects whose members differ in order only, and name the same type.
  ghost predicate Alike(pool: Pool, a: seq<Member>, b: seq<Member>) {
    && ReadableObject(pool, None, a) && ReadableObject(pool, None, b) && MembersReordered(a, b) && a[0] == b[0]
  }

  lemma {:induction false} SameTag(pool: Pool, a: seq<Member>, b: seq<Member>)
    requires ValidPool(pool) && ReadableObject(pool, None, a) && ReadableObject(pool, None, b) && MembersReordered(a, b)
    ensures Alike(pool, a, b)
  {
    var k := FindMember(b, a[0].name);
    if k > 0 {
      TagIsNoField(pool, pool.types[b[0].value.str], b[k]);
    }
  }

  // Behind the leading members, each finds the other.
  lemma {:induction false} FoundInEachOther(pool: Pool, a: seq<Member>, b: seq<Member>)
    requires Alike(pool, a, b)
    ensures forall k :: 1 <= k < |a| ==> 1 <= FindMember(b, a[k].name) < |b|
    ensures forall k :: 1 <= k < |b| ==> 1 <= FindMember(a, b[k].name) < |a| && Same(b, Same(a, b[k])) == b[k]
  {
  }

  // The members of `a` mean the same as those of `b` with their names.
  ghost predicate SaySame(pool: Pool, what: Kind, a: seq<Member>, b: seq<Member>)
    requires Alike(pool, a, b)
  {
    var fields := pool.types[a[0].value.str];
    forall k :: 1 <= k < |a| ==>
      && (MemberHolds(pool, what, fields, a[k]) <==> MemberHolds(pool, what, fields, Same(b, a[k])))
      && var i := FindField(fields, a[k].name);
         i < |fields| ==> ReadMember(pool, fields[i], a[k]) == ReadMember(pool, fields[i], Same(b, a[k]))
  }

  lemma {:induction false} SameMembers(pool: Pool, what: Kind, a: seq<Member>, b: seq<Member>)
    requires ValidPool(pool) && Alike(pool, a, b)
    ensures SaySame(pool, what, a, b)
    decreases a, 0
  {
    FoundInEachOther(pool, a, b);
    var fields := pool.types[a[0].value.str];
    forall k | 1 <= k < |a|
      ensures
        && (MemberHolds(pool, what, fields, a[k]) <==> MemberHolds(pool, what, fields, Same(b, a[k])))
        && var i := FindField(fields, a[k].name);
           i < |fields| ==> ReadMember(pool, fields[i], a[k]) == ReadMember(pool, fields[i], Same(b, a[k]))
    {
      SameMember(pool, what, fields, a[k], Same(b, a[k]));
    }
  }

  lemma {:induction false} SameFields(pool: Pool, what: Kind, a: seq<Member>, b: seq<Member>, i: nat)
    requires ValidPool(pool) && Alike(pool, a, b) && SaySame(pool, what, a, b) && i < |pool.types[a[0].value.str]|
    ensures
      var fd := pool.types[a[0].value.str][i];
      ReadField(pool, fd, a) == ReadField(pool, fd, b)
  {
    var fields := pool.types[a[0].value.str];
    assert ValidFields(fields) && IsIdentifier(fields[i].name) && FindField(fields, fields[i].name) == i;
    FoundInEachOther(pool, a, b);
  }

  lemma {:induction false} SameHolds(pool: Pool, what: Kind, a: seq<Member>, b: seq<Member>)
    requires Alike(pool, a, b) && SaySame(pool, what, a, b)
    ensures ObjectHolds(pool, what, a) <==> ObjectHolds(pool, what, b)
  {
    FoundInEachOther(pool, a, b);
  }

  lemma {:induction false} SameObject(pool: Pool, what: Kind, a: seq<Member>, b: seq<Member>)
    requires ValidPool(pool) && ReadableObject(pool, None, a) && ReadableObject(pool, None, b) && MembersReordered(a, b)
    ensures ReadObject(pool, a) == ReadObject(pool, b)
    ensures ObjectHolds(pool, what, a) <==> ObjectHolds(pool, what, b)
    decreases a, 1
  {
    SameTag(pool, a, b);
    SameMembers(pool, what, a, b);
    SameHolds(pool, what, a, b);
    var fields := pool.types[a[0].value.str];
    forall i | 0 <= i < |fields| ensures ReadField(pool, fields[i], a) == ReadField(pool, fields[i], b) {
      SameFields(pool, what, a, b, i);
    }
  }

  /** Two fitting documents that differ in the order of members only, at any depth, decode alike. */
  lemma {:induction false} OrderDoesNotMatter(pool: Pool, a: seq<Member>, b: seq<Member>)
    requires ValidPool(pool) && ReadableObject(pool, None, a) && ReadableObject(pool, None, b)
    requires MembersReordered(a, b)
    ensures Decode(pool, Obj(a)) == Decode(pool, Obj(b))
  {
    FittingJsonDecodes(pool, a);
    FittingJsonDecodes(pool, b);
    SameObject(pool, KEnum, a, b);
  }
}
