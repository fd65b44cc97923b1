/** The stack machine refines a decoder that recurses over the JSON tree and has no stack. */
module BigStep {
  import opened Common
  import opened Traversal
  import opened Protobuf
  import opened Decoder

  // Either undefined behaviour, or a value and the code returned with it.
  datatype Run<+T> = Crash | Ran(value: T, code: Code)

  // ----- The recursive decoder -----

  // All members of an object, starting from the message read so far, if any.
  function RunMembers(pool: Pool, om: Option<Msg>, members: seq<Member>): Run<Option<Msg>>
    decreases members
  {
    if members == [] then Ran(om, ZOK)
    else
      var r := RunMember(pool, om, CStr(members[0].name), members[0].value);
      if r.Crash? || r.code != ZOK then r else RunMembers(pool, r.value, members[1..])
  }

  function RunMember(pool: Pool, om: Option<Msg>, name: string, v: Value): Run<Option<Msg>>
    decreases v
  {
    match v
    case Null => Ran(om, ZOK)
    case Obj(members) => RunObject(pool, om, Some(name), RunMembers(pool, None, members))
    case Arr(items) => RunItems(pool, om, name, items)
    case Str(s) =>
      if IsAtName(name) then
        if Resolves(pool, CStr(s)) then Ran(Some(New(pool, CStr(s))), ZOK) else Ran(om, ZCAST_FAIL)
      else RunLeaf(pool, om, name, v)
    case _ => RunLeaf(pool, om, name, v)
  }

  function RunItems(pool: Pool, om: Option<Msg>, name: string, items: seq<Value>): Run<Option<Msg>>
    decreases items
  {
    if items == [] then Ran(om, ZOK)
    else
      var r := RunItem(pool, om, name, items[0]);
      if r.Crash? || r.code != ZOK then r else RunItems(pool, r.value, name, items[1..])
  }

  // An element object takes the array's name once its type is known.
  function RunItem(pool: Pool, om: Option<Msg>, name: string, v: Value): Run<Option<Msg>>
    decreases v
  {
    match v
    case Null => Ran(om, ZOK)
    case Obj(members) =>
      var child := RunMembers(pool, None, members);
      RunObject(pool, om, if child.Ran? && child.value.Some? then Some(name) else None, child)
    case _ => RunLeaf(pool, om, name, v)
  }

  function RunLeaf(pool: Pool, om: Option<Msg>, name: string, v: Value): Run<Option<Msg>> {
    match om
    case None => if IsAtName(name) then Crash else Ran(None, ZPARAM_INVALID)
    case Some(m) => var (m', c) := AssignLeaf(pool, m, name, v); Ran(Some(m'), c)
  }

  // A nested message is merged even when reading it failed; the failure's code is kept.
  function RunObject(pool: Pool, om: Option<Msg>, key: Option<string>, child: Run<Option<Msg>>): Run<Option<Msg>> {
    match child
    case Crash => Crash
    case Ran(c, code) =>
      match MergeMessage(pool, key, om, c)
      case None => Crash
      case Some(m) => Ran(Some(m), code)
  }

  // ----- The trees it is compared on -----

  // Arrays stand only as members, and not under a name that starts with '@'.
  ghost predicate Regular(v: Value)
    decreases v
  {
    match v
    case Obj(members) => RegularMembers(members)
    case _ => true
  }

  ghost predicate RegularMembers(members: seq<Member>)
    decreases members
  {
    forall i :: 0 <= i < |members| ==> RegularMember(members[i])
  }

  ghost predicate RegularMember(m: Member)
    decreases m
  {
    match m.value
    case Arr(items) => !IsAtName(CStr(m.name)) && forall j :: 0 <= j < |items| ==> !items[j].Arr? && Regular(items[j])
    case v => Regular(v)
  }

  // ----- The refinement -----

  // What the machine has made of the frame (key, om) that stood on `base`.
  ghost predicate Settled(base: seq<Frame>, key: Option<string>, run: Run<Option<Msg>>, final: (Stack, Code))
  {
    match run
    case Crash => final.0 == None
    case Ran(om, code) =>
      && final.1 == code
      && final.0.Some? && |final.0.value| == |base| + 1
      && final.0.value == base + [MsgFrame(final.0.value[|base|].key, om)]
      && KeyKept(base, key, final.0.value[|base|].key, om)
  }

  // The same inside an array of that name, whose frame stands on the message's.
  ghost predicate SettledInArray(
      base: seq<Frame>, key: Option<string>, name: string, run: Run<Option<Msg>>, final: (Stack, Code))
  {
    match run
    case Crash => final.0 == None
    case Ran(om, code) => final == (Some(InArray(base, key, om, name)), code)
  }

  function InMessage(base: seq<Frame>, key: Option<string>, om: Option<Msg>): seq<Frame> {
    base + [MsgFrame(key, om)]
  }

  function InArray(base: seq<Frame>, key: Option<string>, om: Option<Msg>, name: string): seq<Frame> {
    InMessage(base, key, om) + [ArrFrame(Some(name))]
  }

  // A key is kept once set; a frame without one gets its key together with its message.
  ghost predicate KeyKept(base: seq<Frame>, key: Option<string>, key': Option<string>, om: Option<Msg>) {
    && (key.Some? ==> key' == key)
    && (key.None? ==> (key'.None? <==> om.None?))
    && (key.None? && om.Some? && base != [] ==> key' == Last(base).key)
  }

  // A message frame that may stand on `base`: without a key it has no message yet, and stands
  // at the bottom or on an array that has a name.
  ghost predicate CanStand(base: seq<Frame>, key: Option<string>, om: Option<Msg>) {
    key.None? ==> om.None? && (base == [] || Last(base).key.Some?)
  }

  ghost predicate NeverLost(om: Option<Msg>, run: Run<Option<Msg>>) {
    om.Some? && run.Ran? ==> run.value.Some?
  }

  lemma {:induction false} CrashedStays(pool: Pool, name: Option<string>, v: Value)
    ensures Visit(OnEvent(pool), None, name, v).0 == None
    decreases v, 0
  {
    match v
    case Arr(items) => CrashedStaysItems(pool, items);
    case Obj(members) => CrashedStaysMembers(pool, members);
    case _ =>
  }

  lemma {:induction false} CrashedStaysItems(pool: Pool, items: seq<Value>)
    ensures VisitItems(OnEvent(pool), None, items).0 == None
    decreases items, 1
  {
    if items != [] {
      CrashedStays(pool, None, items[0]);
      CrashedStaysItems(pool, items[1..]);
    }
  }

  lemma {:induction false} CrashedStaysMembers(pool: Pool, members: seq<Member>)
    ensures VisitMembers(OnEvent(pool), None, members).0 == None
    decreases members, 1
  {
    if members != [] {
      CrashedStays(pool, Some(members[0].name), members[0].value);
      CrashedStaysMembers(pool, members[1..]);
    }
  }

  lemma {:induction false} MergeUnderneath(
      pool: Pool, base: seq<Frame>, key: Option<string>, om: Option<Msg>, above: seq<Frame>,
      childKey: Option<string>, child: Option<Msg>)
    ensures
      MergeAt(pool, InMessage(base, key, om) + above, |base|, childKey, child) ==
      match MergeMessage(pool, childKey, om, child)
      case None => None
      case Some(m) => Some(InMessage(base, key, Some(m)) + above)
  {
    var fs := InMessage(base, key, om) + above;
    assert fs[|base|] == MsgFrame(key, om);
    assert forall m :: fs[|base| := MsgFrame(key, Some(m))] == InMessage(base, key, Some(m)) + above;
  }

  /** Stack-machine lemma. From any stack, the machine's run over the members of an object
      leaves everything below the top frame as it was, and in the top frame exactly the message,
      and with it exactly the code, that the recursive decoder computes; it runs into undefined
      behaviour exactly when the recursive decoder does. This includes runs that abort. */
  lemma {:induction false} MembersRefine(
      pool: Pool, base: seq<Frame>, key: Option<string>, om: Option<Msg>, members: seq<Member>)
    requires RegularMembers(members)
    requires CanStand(base, key, om)
    ensures Settled(base, key, RunMembers(pool, om, members),
                    VisitMembers(OnEvent(pool), Some(InMessage(base, key, om)), members))
    ensures NeverLost(om, RunMembers(pool, om, members))
    decreases members, 1
  {
    if members != [] {
      var first := Visit(OnEvent(pool), Some(InMessage(base, key, om)), Some(members[0].name), members[0].value);
      var r := RunMember(pool, om, CStr(members[0].name), members[0].value);
      MemberRefines(pool, base, key, om, members[0]);
      if r.Crash? {
        CrashedStaysMembers(pool, members[1..]);
      } else if r.code == ZOK {
        assert RegularMembers(members[1..]);
        MembersRefine(pool, base, first.0.value[|base|].key, r.value, members[1..]);
      }
    }
  }

  lemma {:induction false} MemberRefines(pool: Pool, base: seq<Frame>, key: Option<string>, om: Option<Msg>, m: Member)
    requires RegularMember(m)
    requires CanStand(base, key, om)
    ensures Settled(base, key, RunMember(pool, om, CStr(m.name), m.value),
                    Visit(OnEvent(pool), Some(InMessage(base, key, om)), Some(m.name), m.value))
    ensures NeverLost(om, RunMember(pool, om, CStr(m.name), m.value))
    decreases m, 0
  {
    var f, fs, name := OnEvent(pool), InMessage(base, key, om), CStr(m.name);
    match m.value
    case Obj(members) =>
      MembersRefine(pool, fs, Some(name), None, members);
      var final := VisitMembers(f, Some(InMessage(fs, Some(name), None)), members);
      var r := RunMembers(pool, None, members);
      if r.Ran? {
        assert final.0.value == InMessage(fs, Some(name), r.value);
        assert fs + [] == fs;
        MergeUnderneath(pool, base, key, om, [], Some(name), r.value);
      }
    case Arr(items) =>
      ItemsRefine(pool, base, key, om, name, items);
      var r := RunItems(pool, om, name, items);
      if r.Ran? {
        assert InArray(base, key, r.value, name)[..|fs|] == InMessage(base, key, r.value);
      }
    case _ =>
      LeafRefines(pool, base, key, om, m);
  }

  lemma {:induction false} LeafRefines(pool: Pool, base: seq<Frame>, key: Option<string>, om: Option<Msg>, m: Member)
    requires IsLeaf(m.value)
    requires CanStand(base, key, om)
    ensures Settled(base, key, RunMember(pool, om, CStr(m.name), m.value),
                    Visit(OnEvent(pool), Some(InMessage(base, key, om)), Some(m.name), m.value))
    ensures NeverLost(om, RunMember(pool, om, CStr(m.name), m.value))
  {
    var fs := InMessage(base, key, om);
    assert fs[|base|] == MsgFrame(key, om);
    if base != [] {
      assert fs[|fs| - 2] == Last(base);
    }
    assert forall f :: fs[|base| := f] == base + [f];
  }

  lemma {:induction false} ItemsRefine(
      pool: Pool, base: seq<Frame>, key: Option<string>, om: Option<Msg>, name: string, items: seq<Value>)
    requires !IsAtName(name)
    requires forall j :: 0 <= j < |items| ==> !items[j].Arr? && Regular(items[j])
    ensures SettledInArray(base, key, name, RunItems(pool, om, name, items),
                           VisitItems(OnEvent(pool), Some(InArray(base, key, om, name)), items))
    ensures NeverLost(om, RunItems(pool, om, name, items))
    ensures om.None? && RunItems(pool, om, name, items).Ran? ==> RunItems(pool, om, name, items).value.None?
    decreases items, 1
  {
    if items != [] {
      var r := RunItem(pool, om, name, items[0]);
      ItemRefines(pool, base, key, om, name, items[0]);
      if r.Crash? {
        CrashedStaysItems(pool, items[1..]);
      } else if r.code == ZOK {
        ItemsRefine(pool, base, key, r.value, name, items[1..]);
      }
    }
  }

  lemma {:induction false} ItemRefines(
      pool: Pool, base: seq<Frame>, key: Option<string>, om: Option<Msg>, name: string, v: Value)
    requires !IsAtName(name) && !v.Arr? && Regular(v)
    ensures SettledInArray(base, key, name, RunItem(pool, om, name, v),
                           Visit(OnEvent(pool), Some(InArray(base, key, om, name)), None, v))
    ensures om.None? && RunItem(pool, om, name, v).Ran? ==> RunItem(pool, om, name, v).value.None?
    decreases v, 0
  {
    var f, fs := OnEvent(pool), InArray(base, key, om, name);
    match v
    case Obj(members) =>
      MembersRefine(pool, fs, None, None, members);
      var final := VisitMembers(f, Some(InMessage(fs, None, None)), members);
      var r := RunMembers(pool, None, members);
      if r.Ran? {
        var key' := final.0.value[|fs|].key;
        assert final.0.value == InMessage(fs, key', r.value);
        assert InMessage(fs, key', r.value)[..|fs|] == fs;
        MergeUnderneath(pool, base, key, om, [ArrFrame(Some(name))], key', r.value);
      }
    case _ =>
      ItemLeafRefines(pool, base, key, om, name, v);
  }

  lemma {:induction false} ItemLeafRefines(
      pool: Pool, base: seq<Frame>, key: Option<string>, om: Option<Msg>, name: string, v: Value)
    requires !IsAtName(name) && IsLeaf(v)
    ensures SettledInArray(base, key, name, RunItem(pool, om, name, v),
                           Visit(OnEvent(pool), Some(InArray(base, key, om, name)), None, v))
  {
    var fs := InArray(base, key, om, name);
    assert fs[|base|] == MsgFrame(key, om) && |fs| - 2 == |base|;
    assert forall om' :: fs[|base| := MsgFrame(key, om')] == InArray(base, key, om', name);
  }

  /** Json2pb on any regular root object returns what the recursive decoder returns: its message
      and ZOK, or the code of the leaf that stopped it and no message. */
  lemma {:induction false} JsonToMessage(pool: Pool, members: seq<Member>)
    requires RegularMembers(members)
    ensures
      Decode(pool, Obj(members)) ==
      match RunMembers(pool, None, members)
      case Crash => Undefined
      case Ran(om, code) => Returned(code, if code == ZOK then om else None)
  {
    MembersRefine(pool, [], None, None, members);
    assert [] + [MsgFrame(None, None)] == InMessage([], None, None);
  }
}
