/** The event traversal of a JSON tree: RJson::ForEach, EachObject and EachArray. */
module Traversal {
  import opened Common

  // Bit patterns of the two IEEE formats; only equality is used.
  newtype Float64 = x: int | 0 <= x < 0x1_0000_0000_0000_0000
  newtype Float32 = x: int | 0 <= x < 0x1_0000_0000

  datatype Number = Integer(i: int) | Double(d: Float64)

  datatype Value =
    | Null
    | False
    | True
    | Num(num: Number)
    | Str(str: string)
    | Arr(items: seq<Value>)
    | Obj(members: seq<Member>)

  datatype Member = Member(name: string, value: Value)

  predicate IsLeaf(v: Value) {
    !v.Arr? && !v.Obj?
  }

  // One call of the callback. The name is absent for array elements and for the root.
  datatype Event =
    | Leaf(name: Option<string>, leaf: Value)
    | ArrayBegin(name: Option<string>)
    | ArrayEnd(name: Option<string>)
    | ObjectBegin(name: Option<string>)
    | ObjectEnd(name: Option<string>)

  // A callback together with the memory its hint points to: old hint and event to new hint and code.
  type Callback<!S> = (S, Event) -> (S, Code)

  // ----- The traversal as a function of callback, hint and tree -----

  function Visit<S>(f: Callback<S>, s: S, name: Option<string>, v: Value): (S, Code)
    decreases v
  {
    match v
    case Arr(items) =>
      var (s2, c) := VisitItems(f, f(s, ArrayBegin(name)).0, items);
      (f(s2, ArrayEnd(name)).0, c)
    case Obj(members) =>
      var (s2, c) := VisitMembers(f, f(s, ObjectBegin(name)).0, members);
      (f(s2, ObjectEnd(name)).0, c)
    case _ => f(s, Leaf(name, v))
  }

  function VisitItems<S>(f: Callback<S>, s: S, items: seq<Value>): (S, Code)
    decreases items
  {
    if items == [] then (s, ZOK)
    else
      var (s1, c) := Visit(f, s, None, items[0]);
      if c != ZOK then (s1, c) else VisitItems(f, s1, items[1..])
  }

  function VisitMembers<S>(f: Callback<S>, s: S, members: seq<Member>): (S, Code)
    decreases members
  {
    if members == [] then (s, ZOK)
    else
      var (s1, c) := Visit(f, s, Some(members[0].name), members[0].value);
      if c != ZOK then (s1, c) else VisitMembers(f, s1, members[1..])
  }

  // ----- The traversal as the loops that run it -----

  /** What the callback's hint pointer refers to. */
  class Hint<S> {
    var state: S

    constructor (s: S)
      ensures state == s
    {
      state := s;
    }

    method Call(f: Callback<S>, e: Event) returns (ret: Code)
      modifies this
      ensures (state, ret) == f(old(state), e)
    {
      var r := f(state, e);
      state, ret := r.0, r.1;
    }
  }

  method ForEach<S>(v: Value, fun: Callback<S>, hint: Hint<S>) returns (ret: Code)
    modifies hint
    ensures (hint.state, ret) == Visit(fun, old(hint.state), None, v)
    decreases v, 1
  {
    match v
    case Arr(items) =>
      var _ := hint.Call(fun, ArrayBegin(None));
      ret := EachArray(v, fun, hint);
      var _ := hint.Call(fun, ArrayEnd(None));
    case Obj(members) =>
      var _ := hint.Call(fun, ObjectBegin(None));
      ret := EachObject(v, fun, hint);
      var _ := hint.Call(fun, ObjectEnd(None));
    case _ =>
      ret := hint.Call(fun, Leaf(None, v));
  }

  method EachObject<S>(v: Value, fun: Callback<S>, hint: Hint<S>) returns (ret: Code)
    requires v.Obj?
    modifies hint
    ensures (hint.state, ret) == VisitMembers(fun, old(hint.state), v.members)
    decreases v, 0
  {
    ret := ZOK;
    var members := v.members;
    for i := 0 to |members|
      invariant ret == ZOK
      invariant VisitMembers(fun, old(hint.state), members) == VisitMembers(fun, hint.state, members[i..])
    {
      var name, value := Some(members[i].name), members[i].value;
      assert members[i] in members;
      assert members[i..][1..] == members[i + 1..];
      match value {
        case Arr(_) =>
          var _ := hint.Call(fun, ArrayBegin(name));
          ret := EachArray(value, fun, hint);
          var _ := hint.Call(fun, ArrayEnd(name));
        case Obj(_) =>
          var _ := hint.Call(fun, ObjectBegin(name));
          ret := EachObject(value, fun, hint);
          var _ := hint.Call(fun, ObjectEnd(name));
        case _ =>
          ret := hint.Call(fun, Leaf(name, value));
      }
      if ret != ZOK {
        return;
      }
    }
  }

  method EachArray<S>(v: Value, fun: Callback<S>, hint: Hint<S>) returns (ret: Code)
    requires v.Arr?
    modifies hint
    ensures (hint.state, ret) == VisitItems(fun, old(hint.state), v.items)
    decreases v, 0
  {
    ret := ZOK;
    var items := v.items;
    for i := 0 to |items|
      invariant ret == ZOK
      invariant VisitItems(fun, old(hint.state), items) == VisitItems(fun, hint.state, items[i..])
    {
      assert items[i..][1..] == items[i + 1..];
      ret := ForEach(items[i], fun, hint);
      if ret != ZOK {
        return;
      }
    }
  }

  // ----- Reference: the full event stream, and a flat reading of it -----

  function Events(name: Option<string>, v: Value): (es: seq<Event>)
    ensures es != []
    decreases v
  {
    match v
    case Arr(items) => [ArrayBegin(name)] + ItemEvents(items) + [ArrayEnd(name)]
    case Obj(members) => [ObjectBegin(name)] + MemberEvents(members) + [ObjectEnd(name)]
    case _ => [Leaf(name, v)]
  }

  function ItemEvents(items: seq<Value>): seq<Event>
    decreases items
  {
    if items == [] then [] else Events(None, items[0]) + ItemEvents(items[1..])
  }

  function MemberEvents(members: seq<Member>): seq<Event>
    decreases members
  {
    if members == [] then []
    else Events(Some(members[0].name), members[0].value) + MemberEvents(members[1..])
  }

  // The End events still owed after a prefix of a stream, innermost first.
  function Owed(es: seq<Event>): seq<Event>
  {
    if es == [] then []
    else
      var last, owed := es[|es| - 1], Owed(es[..|es| - 1]);
      match last
      case ArrayBegin(n) => [ArrayEnd(n)] + owed
      case ObjectBegin(n) => [ObjectEnd(n)] + owed
      case Leaf(_, _) => owed
      case _ => if owed == [] then [] else owed[1..]
  }

  // Calling the callback on every event of a list, whatever it returns.
  function Feed<S>(f: Callback<S>, s: S, es: seq<Event>): S
  {
    if es == [] then s else Feed(f, f(s, es[0]).0, es[1..])
  }

  // Index of the first leaf whose callback fails; the length of the stream if none does.
  function FirstFailure<S>(f: Callback<S>, s: S, es: seq<Event>): (k: nat)
    ensures k <= |es|
    ensures k < |es| ==> es[k].Leaf?
  {
    if es == [] then 0
    else if es[0].Leaf? && f(s, es[0]).1 != ZOK then 0
    else 1 + FirstFailure(f, f(s, es[0]).0, es[1..])
  }

  // Both runs in one notation: the state and code after reading a stream flatly,
  // closing the containers in `owed` as soon as a leaf fails.
  function RunFlat<S>(f: Callback<S>, s: S, es: seq<Event>, owed: seq<Event>): (S, Code)
  {
    if es == [] then (s, ZOK)
    else
      var (s1, c) := f(s, es[0]);
      match es[0]
      case Leaf(_, _) => if c != ZOK then (Feed(f, s1, owed), c) else RunFlat(f, s1, es[1..], owed)
      case ArrayBegin(n) => RunFlat(f, s1, es[1..], [ArrayEnd(n)] + owed)
      case ObjectBegin(n) => RunFlat(f, s1, es[1..], [ObjectEnd(n)] + owed)
      case _ => RunFlat(f, s1, es[1..], if owed == [] then [] else owed[1..])
  }

  // How a flat run continues after the part of the stream that a visit covers.
  function Then<S>(f: Callback<S>, visited: (S, Code), rest: seq<Event>, owed: seq<Event>): (S, Code) {
    if visited.1 == ZOK then RunFlat(f, visited.0, rest, owed)
    else (Feed(f, visited.0, owed), visited.1)
  }

  lemma {:induction false} VisitRunsFlat<S>(
      f: Callback<S>, s: S, name: Option<string>, v: Value, rest: seq<Event>, owed: seq<Event>)
    ensures RunFlat(f, s, Events(name, v) + rest, owed) == Then(f, Visit(f, s, name, v), rest, owed)
    decreases v, 0
  {
    var es := Events(name, v) + rest;
    match v
    case Arr(items) =>
      var tail := [ArrayEnd(name)] + rest;
      assert es[0] == ArrayBegin(name) && es[1..] == ItemEvents(items) + tail;
      ItemsRunFlat(f, f(s, ArrayBegin(name)).0, items, tail, [ArrayEnd(name)] + owed);
      assert tail[1..] == rest && ([ArrayEnd(name)] + owed)[1..] == owed;
    case Obj(members) =>
      var tail := [ObjectEnd(name)] + rest;
      assert es[0] == ObjectBegin(name) && es[1..] == MemberEvents(members) + tail;
      MembersRunFlat(f, f(s, ObjectBegin(name)).0, members, tail, [ObjectEnd(name)] + owed);
      assert tail[1..] == rest && ([ObjectEnd(name)] + owed)[1..] == owed;
    case _ =>
      assert es[0] == Leaf(name, v) && es[1..] == rest;
  }

  lemma {:induction false} ItemsRunFlat<S>(f: Callback<S>, s: S, items: seq<Value>, rest: seq<Event>, owed: seq<Event>)
    ensures RunFlat(f, s, ItemEvents(items) + rest, owed) == Then(f, VisitItems(f, s, items), rest, owed)
    decreases items, 1
  {
    if items == [] {
      assert ItemEvents(items) + rest == rest;
    } else {
      var more := ItemEvents(items[1..]) + rest;
      assert ItemEvents(items) + rest == Events(None, items[0]) + more;
      VisitRunsFlat(f, s, None, items[0], more, owed);
      ItemsRunFlat(f, Visit(f, s, None, items[0]).0, items[1..], rest, owed);
    }
  }

  lemma {:induction false} MembersRunFlat<S>(
      f: Callback<S>, s: S, members: seq<Member>, rest: seq<Event>, owed: seq<Event>)
    ensures RunFlat(f, s, MemberEvents(members) + rest, owed) == Then(f, VisitMembers(f, s, members), rest, owed)
    decreases members, 1
  {
    if members == [] {
      assert MemberEvents(members) + rest == rest;
    } else {
      var more := MemberEvents(members[1..]) + rest;
      var name := Some(members[0].name);
      assert MemberEvents(members) + rest == Events(name, members[0].value) + more;
      VisitRunsFlat(f, s, name, members[0].value, more, owed);
      MembersRunFlat(f, Visit(f, s, name, members[0].value).0, members[1..], rest, owed);
    }
  }

  // The calls of a run that fails later, by its first call and the rest.
  lemma {:induction false} CallsAfterFirst<S>(f: Callback<S>, s: S, seen: seq<Event>, es: seq<Event>, k: nat)
    requires 0 < k < |es|
    ensures
      var s1, now, rest := f(s, es[0]).0, seen + [es[0]], es[1..];
      && Feed(f, s, es[..k + 1] + Owed(seen + es[..k])) == Feed(f, s1, rest[..k] + Owed(now + rest[..k - 1]))
      && Feed(f, s, es[..k]) == Feed(f, s1, rest[..k - 1])
  {
    var now, rest := seen + [es[0]], es[1..];
    assert es[..k][1..] == rest[..k - 1];
    assert now + rest[..k - 1] == seen + es[..k];
    assert (es[..k + 1] + Owed(seen + es[..k]))[1..] == rest[..k] + Owed(seen + es[..k]);
  }

  // A flat run calls the callback on exactly the events up to the first failing leaf,
  // then on the End events owed there. `seen` is the part of the stream already read.
  lemma {:induction false} FlatRunShape<S>(f: Callback<S>, s: S, seen: seq<Event>, es: seq<Event>)
    ensures
      var k := FirstFailure(f, s, es);
      RunFlat(f, s, es, Owed(seen)) ==
      if k == |es| then (Feed(f, s, es), ZOK)
      else (Feed(f, s, es[..k + 1] + Owed(seen + es[..k])), f(Feed(f, s, es[..k]), es[k]).1)
    decreases |es|
  {
    if es != [] {
      var (s1, c) := f(s, es[0]);
      var k := FirstFailure(f, s, es);
      var now := seen + [es[0]];
      assert now[..|now| - 1] == seen;
      if es[0].Leaf? && c != ZOK {
        assert es[..0] == [] && seen + es[..0] == seen;
        assert (es[..1] + Owed(seen))[1..] == Owed(seen);
      } else {
        FlatRunShape(f, s1, now, es[1..]);
        if k < |es| {
          CallsAfterFirst(f, s, seen, es, k);
        }
      }
    }
  }

  /** Abort shape: the traversal makes exactly the calls of the full event stream up to and
      including the first leaf whose callback fails, then the End calls of the containers open
      there, innermost first, and returns that leaf's code. Without a failing leaf it makes
      exactly the calls of the full stream and returns ZOK. */
  lemma {:induction false} AbortShape<S>(f: Callback<S>, s: S, name: Option<string>, v: Value)
    ensures
      var es := Events(name, v);
      var k := FirstFailure(f, s, es);
      Visit(f, s, name, v) ==
      if k == |es| then (Feed(f, s, es), ZOK)
      else (Feed(f, s, es[..k + 1] + Owed(es[..k])), f(Feed(f, s, es[..k]), es[k]).1)
  {
    var es := Events(name, v);
    VisitRunsFlat(f, s, name, v, [], []);
    assert es + [] == es && Owed([]) == [];
    FlatRunShape(f, s, [], es);
    var k := FirstFailure(f, s, es);
    assert [] + es[..k] == es[..k];
  }

  // ----- What an aborted traversal has told the callback -----

  // The part of a value that the first k events of its stream tell of.
  function Cut(v: Value, k: nat): Value
    decreases v
  {
    match v
    case Arr(items) => Arr(CutItems(items, if k == 0 then 0 else k - 1))
    case Obj(members) => Obj(CutMembers(members, if k == 0 then 0 else k - 1))
    case _ => v
  }

  function CutItems(items: seq<Value>, k: nat): seq<Value>
    decreases items
  {
    if items == [] || k == 0 then []
    else
      var n := |Events(None, items[0])|;
      if k < n then [Cut(items[0], k)] else [items[0]] + CutItems(items[1..], k - n)
  }

  function CutMembers(members: seq<Member>, k: nat): seq<Member>
    decreases members
  {
    if members == [] || k == 0 then []
    else
      var m := members[0];
      var n := |Events(Some(m.name), m.value)|;
      if k < n then [Member(m.name, Cut(m.value, k))] else [m] + CutMembers(members[1..], k - n)
  }

  // A whole value leaves nothing owed behind that was not owed before.
  lemma {:induction false} OwedBehind(pre: seq<Event>, name: Option<string>, v: Value)
    ensures Owed(pre + Events(name, v)) == Owed(pre)
    decreases v, 0
  {
    match v
    case Arr(items) =>
      OwedBehindItems(pre + [ArrayBegin(name)], items);
      OwedClosed(pre, ArrayBegin(name), ItemEvents(items), ArrayEnd(name));
    case Obj(members) =>
      OwedBehindMembers(pre + [ObjectBegin(name)], members);
      OwedClosed(pre, ObjectBegin(name), MemberEvents(members), ObjectEnd(name));
    case _ =>
      OwedLast(pre, Leaf(name, v));
  }

  lemma {:induction false} OwedLast(pre: seq<Event>, e: Event)
    ensures
      var owed := Owed(pre);
      Owed(pre + [e]) ==
      match e
      case ArrayBegin(n) => [ArrayEnd(n)] + owed
      case ObjectBegin(n) => [ObjectEnd(n)] + owed
      case Leaf(_, _) => owed
      case _ => if owed == [] then [] else owed[1..]
  {
    assert (pre + [e])[..|pre|] == pre;
  }

  lemma {:induction false} OwedClosed(pre: seq<Event>, begin: Event, inner: seq<Event>, end: Event)
    requires begin.ArrayBegin? || begin.ObjectBegin?
    requires end.ArrayEnd? || end.ObjectEnd?
    requires Owed(pre + [begin] + inner) == Owed(pre + [begin])
    ensures Owed(pre + ([begin] + inner + [end])) == Owed(pre)
  {
    assert pre + ([begin] + inner + [end]) == pre + [begin] + inner + [end];
    OwedLast(pre + [begin] + inner, end);
    OwedLast(pre, begin);
  }

  lemma {:induction false} OwedThrough(pre: seq<Event>, first: seq<Event>, rest: seq<Event>)
    requires Owed(pre + first + rest) == Owed(pre + first) == Owed(pre)
    ensures Owed(pre + (first + rest)) == Owed(pre)
  {
    assert pre + (first + rest) == pre + first + rest;
  }

  lemma {:induction false} OwedBehindItems(pre: seq<Event>, items: seq<Value>)
    ensures Owed(pre + ItemEvents(items)) == Owed(pre)
    decreases items, 1
  {
    if items == [] {
      assert pre + ItemEvents(items) == pre;
    } else {
      var first, rest := Events(None, items[0]), ItemEvents(items[1..]);
      OwedBehind(pre, None, items[0]);
      OwedBehindItems(pre + first, items[1..]);
      OwedThrough(pre, first, rest);
    }
  }

  lemma {:induction false} OwedBehindMembers(pre: seq<Event>, members: seq<Member>)
    ensures Owed(pre + MemberEvents(members)) == Owed(pre)
    decreases members, 1
  {
    if members == [] {
      assert pre + MemberEvents(members) == pre;
    } else {
      var first, rest := Events(Some(members[0].name), members[0].value), MemberEvents(members[1..]);
      OwedBehind(pre, Some(members[0].name), members[0].value);
      OwedBehindMembers(pre + first, members[1..]);
      OwedThrough(pre, first, rest);
    }
  }

  lemma {:induction false} CutAll(name: Option<string>, v: Value)
    ensures Cut(v, |Events(name, v)|) == v
  {
    match v
    case Arr(items) => CutItemsAll(items, |Events(name, v)| - 1);
    case Obj(members) => CutMembersAll(members, |Events(name, v)| - 1);
    case _ =>
  }

  // The events read, and then those owed, tell of the part read, whatever was read before.
  lemma {:induction false} CutCloses(pre: seq<Event>, name: Option<string>, v: Value, k: nat)
    requires 1 <= k <= |Events(name, v)|
    ensures Events(name, v)[..k] + Owed(pre + Events(name, v)[..k]) == Events(name, Cut(v, k)) + Owed(pre)
    decreases v, 0
  {
    if k == |Events(name, v)| {
      CutAll(name, v);
      OwedBehind(pre, name, v);
      assert Events(name, v)[..k] == Events(name, v);
    } else {
      match v
      case Arr(items) =>
        CutItemsCloses(pre + [ArrayBegin(name)], items, k - 1);
        CutInside(pre, ArrayBegin(name), ItemEvents(items), ArrayEnd(name), k, ItemEvents(CutItems(items, k - 1)));
      case Obj(members) =>
        var cut := MemberEvents(CutMembers(members, k - 1));
        CutMembersCloses(pre + [ObjectBegin(name)], members, k - 1);
        CutInside(pre, ObjectBegin(name), MemberEvents(members), ObjectEnd(name), k, cut);
    }
  }

  // The step from what is inside a container to the container.
  lemma {:induction false} CutInside(
      pre: seq<Event>, begin: Event, inner: seq<Event>, end: Event, k: nat, cut: seq<Event>)
    requires 1 <= k
    requires (begin.ArrayBegin? && end == ArrayEnd(begin.name)) || (begin.ObjectBegin? && end == ObjectEnd(begin.name))
    requires k - 1 <= |inner| ==> inner[..k - 1] + Owed(pre + [begin] + inner[..k - 1]) == cut + Owed(pre + [begin])
    ensures
      var es := [begin] + inner + [end];
      k < |es| ==> es[..k] + Owed(pre + es[..k]) == [begin] + cut + [end] + Owed(pre)
  {
    var es := [begin] + inner + [end];
    if k < |es| {
      var read := inner[..k - 1];
      assert es[..k] == [begin] + read && pre + ([begin] + read) == pre + [begin] + read;
      OwedLast(pre, begin);
      assert [begin] + read + Owed(pre + [begin] + read) == [begin] + (read + Owed(pre + [begin] + read));
      assert [begin] + (cut + ([end] + Owed(pre))) == [begin] + cut + [end] + Owed(pre);
    }
  }

  // The step from what comes behind a value to both.
  lemma {:induction false} CutBehind(pre: seq<Event>, first: seq<Event>, rest: seq<Event>, j: nat, cut: seq<Event>)
    requires j <= |rest| && Owed(pre + first) == Owed(pre)
    requires rest[..j] + Owed(pre + first + rest[..j]) == cut + Owed(pre + first)
    ensures
      var es := (first + rest)[..|first| + j];
      es + Owed(pre + es) == first + cut + Owed(pre)
  {
    TakeBehind(pre, first, rest, j);
    Regroup(first, rest[..j], Owed(pre + first + rest[..j]), cut, Owed(pre));
  }

  lemma {:induction false} TakeBehind<T>(pre: seq<T>, first: seq<T>, rest: seq<T>, j: nat)
    requires j <= |rest|
    ensures (first + rest)[..|first| + j] == first + rest[..j]
    ensures pre + (first + rest[..j]) == pre + first + rest[..j]
  {
  }

  lemma {:induction false} TakeWithin<T>(first: seq<T>, rest: seq<T>, k: nat)
    requires k <= |first|
    ensures (first + rest)[..k] == first[..k]
  {
  }

  lemma {:induction false} Regroup<T>(first: seq<T>, a: seq<T>, b: seq<T>, c: seq<T>, d: seq<T>)
    requires a + b == c + d
    ensures first + a + b == first + c + d
  {
    assert first + a + b == first + (a + b);
    assert first + c + d == first + (c + d);
  }

  lemma {:induction false} CutItemsAll(items: seq<Value>, k: nat)
    requires k >= |ItemEvents(items)|
    ensures CutItems(items, k) == items
    decreases |items|
  {
    if items != [] {
      CutItemsAll(items[1..], k - |Events(None, items[0])|);
    }
  }

  lemma {:induction false} CutMembersAll(members: seq<Member>, k: nat)
    requires k >= |MemberEvents(members)|
    ensures CutMembers(members, k) == members
    decreases |members|
  {
    if members != [] {
      CutMembersAll(members[1..], k - |Events(Some(members[0].name), members[0].value)|);
    }
  }

  lemma {:induction false} CutItemsEvents(items: seq<Value>, k: nat)
    requires items != [] && k > 0
    ensures
      var first := Events(None, items[0]);
      ItemEvents(CutItems(items, k)) ==
      if k < |first| then Events(None, Cut(items[0], k)) else first + ItemEvents(CutItems(items[1..], k - |first|))
  {
    assert k >= |Events(None, items[0])| ==>
      CutItems(items, k)[1..] == CutItems(items[1..], k - |Events(None, items[0])|);
  }

  lemma {:induction false} CutItemsCloses(pre: seq<Event>, items: seq<Value>, k: nat)
    requires k <= |ItemEvents(items)|
    ensures
      var es := ItemEvents(items);
      es[..k] + Owed(pre + es[..k]) == ItemEvents(CutItems(items, k)) + Owed(pre)
    decreases items, 1
  {
    if k == 0 {
      assert pre + ItemEvents(items)[..0] == pre;
    } else {
      var first, rest := Events(None, items[0]), ItemEvents(items[1..]);
      CutItemsEvents(items, k);
      if k < |first| {
        CutCloses(pre, None, items[0], k);
        TakeWithin(first, rest, k);
      } else {
        var j := k - |first|;
        OwedBehind(pre, None, items[0]);
        CutItemsCloses(pre + first, items[1..], j);
        CutBehind(pre, first, rest, j, ItemEvents(CutItems(items[1..], j)));
      }
    }
  }

  lemma {:induction false} CutMembersEvents(members: seq<Member>, k: nat)
    requires members != [] && k > 0
    ensures
      var first := Events(Some(members[0].name), members[0].value);
      MemberEvents(CutMembers(members, k)) ==
      if k < |first| then Events(Some(members[0].name), Cut(members[0].value, k))
      else first + MemberEvents(CutMembers(members[1..], k - |first|))
  {
    var n := |Events(Some(members[0].name), members[0].value)|;
    assert k >= n ==> CutMembers(members, k)[1..] == CutMembers(members[1..], k - n);
  }

  lemma {:induction false} CutMembersCloses(pre: seq<Event>, members: seq<Member>, k: nat)
    requires k <= |MemberEvents(members)|
    ensures
      var es := MemberEvents(members);
      es[..k] + Owed(pre + es[..k]) == MemberEvents(CutMembers(members, k)) + Owed(pre)
    decreases members, 1
  {
    if k == 0 {
      assert pre + MemberEvents(members)[..0] == pre;
    } else {
      var m := members[0];
      var first, rest := Events(Some(m.name), m.value), MemberEvents(members[1..]);
      CutMembersEvents(members, k);
      if k < |first| {
        CutCloses(pre, Some(m.name), m.value, k);
        TakeWithin(first, rest, k);
      } else {
        var j := k - |first|;
        OwedBehind(pre, Some(m.name), m.value);
        CutMembersCloses(pre + first, members[1..], j);
        CutBehind(pre, first, rest, j, MemberEvents(CutMembers(members[1..], j)));
      }
    }
  }

  lemma {:induction false} CutBehindLeaf(name: Option<string>, v: Value, k: nat)
    requires k < |Events(name, v)| && Events(name, v)[k].Leaf?
    ensures Events(name, v)[..k + 1] + Owed(Events(name, v)[..k]) == Events(name, Cut(v, k + 1))
  {
    var es := Events(name, v);
    CutCloses([], name, v, k + 1);
    assert [] + es[..k + 1] == es[..k + 1] == es[..k] + [es[k]];
    OwedLast(es[..k], es[k]);
    assert Events(name, Cut(v, k + 1)) + Owed([]) == Events(name, Cut(v, k + 1));
  }

  /** An aborted traversal is a whole traversal of less: the calls it makes are exactly the event
      stream, every container closed, of the value cut off behind the leaf that failed. */
  lemma {:induction false} AbortIsCut<S>(f: Callback<S>, s: S, name: Option<string>, v: Value)
    ensures
      var k := FirstFailure(f, s, Events(name, v));
      k < |Events(name, v)| ==> Visit(f, s, name, v).0 == Feed(f, s, Events(name, Cut(v, k + 1)))
  {
    var k := FirstFailure(f, s, Events(name, v));
    if k < |Events(name, v)| {
      AbortShape(f, s, name, v);
      CutBehindLeaf(name, v, k);
    }
  }

  // ----- A reader of event streams -----

  // Reads one complete value off the front of a stream.
  function Parse(es: seq<Event>): (r: Option<((Option<string>, Value), seq<Event>)>)
    ensures r.Some? ==> |r.value.1| < |es|
    decreases |es|, 0
  {
    if es == [] then None
    else match es[0]
      case Leaf(n, v) => if IsLeaf(v) then Some(((n, v), es[1..])) else None
      case ArrayBegin(n) =>
        (match ParseAll(es[1..])
         case Some((vs, rest)) =>
           if rest != [] && rest[0] == ArrayEnd(n) && (forall i :: 0 <= i < |vs| ==> vs[i].0 == None)
           then Some(((n, Arr(seq(|vs|, i requires 0 <= i < |vs| => vs[i].1))), rest[1..])) else None
         case None => None)
      case ObjectBegin(n) =>
        (match ParseAll(es[1..])
         case Some((vs, rest)) =>
           if rest != [] && rest[0] == ObjectEnd(n) && (forall i :: 0 <= i < |vs| ==> vs[i].0.Some?)
           then Some(((n, Obj(seq(|vs|, i requires 0 <= i < |vs| => Member(vs[i].0.value, vs[i].1)))), rest[1..]))
           else None
         case None => None)
      case _ => None
  }

  // Reads values until the stream ends or an End event comes.
  function ParseAll(es: seq<Event>): (r: Option<(seq<(Option<string>, Value)>, seq<Event>)>)
    ensures r.Some? ==> |r.value.1| <= |es|
    decreases |es|, 1
  {
    if es == [] || es[0].ArrayEnd? || es[0].ObjectEnd? then Some(([], es))
    else match Parse(es)
      case Some((nv, rest)) =>
        (match ParseAll(rest)
         case Some((vs, rest')) => Some(([nv] + vs, rest'))
         case None => None)
      case None => None
  }

  function Unnamed(items: seq<Value>): seq<(Option<string>, Value)> {
    seq(|items|, i requires 0 <= i < |items| => (None, items[i]))
  }

  function Named(members: seq<Member>): seq<(Option<string>, Value)> {
    seq(|members|, i requires 0 <= i < |members| => (Some(members[i].name), members[i].value))
  }

  /** The event stream of any value is well bracketed and loses nothing: reading it gives back
      the name and the value, member names and order included, and nothing of what follows. */
  lemma {:induction false} ParseEvents(name: Option<string>, v: Value, rest: seq<Event>)
    ensures Parse(Events(name, v) + rest) == Some(((name, v), rest))
    decreases v, 0
  {
    var es := Events(name, v) + rest;
    match v
    case Arr(items) =>
      var tail := [ArrayEnd(name)] + rest;
      assert es[0] == ArrayBegin(name) && es[1..] == ItemEvents(items) + tail;
      ParseItemEvents(items, tail);
      var vs := Unnamed(items);
      assert items == seq(|vs|, i requires 0 <= i < |vs| => vs[i].1);
      assert tail[1..] == rest;
    case Obj(members) =>
      var tail := [ObjectEnd(name)] + rest;
      assert es[0] == ObjectBegin(name) && es[1..] == MemberEvents(members) + tail;
      ParseMemberEvents(members, tail);
      var vs := Named(members);
      assert members == seq(|vs|, i requires 0 <= i < |vs| => Member(vs[i].0.value, vs[i].1));
      assert tail[1..] == rest;
    case _ =>
      assert es[0] == Leaf(name, v) && es[1..] == rest;
  }

  lemma {:induction false} ParseItemEvents(items: seq<Value>, rest: seq<Event>)
    requires rest != [] && (rest[0].ArrayEnd? || rest[0].ObjectEnd?)
    ensures ParseAll(ItemEvents(items) + rest) == Some((Unnamed(items), rest))
    decreases items, 1
  {
    if items == [] {
      assert ItemEvents(items) + rest == rest;
    } else {
      var es := ItemEvents(items) + rest;
      var more := ItemEvents(items[1..]) + rest;
      assert es == Events(None, items[0]) + more;
      ParseEvents(None, items[0], more);
      ParseItemEvents(items[1..], rest);
      EventsStart(None, items[0]);
      assert es[0] == Events(None, items[0])[0];
      assert Unnamed(items) == [(None, items[0])] + Unnamed(items[1..]);
    }
  }

  lemma {:induction false} ParseMemberEvents(members: seq<Member>, rest: seq<Event>)
    requires rest != [] && (rest[0].ArrayEnd? || rest[0].ObjectEnd?)
    ensures ParseAll(MemberEvents(members) + rest) == Some((Named(members), rest))
    decreases members, 1
  {
    if members == [] {
      assert MemberEvents(members) + rest == rest;
    } else {
      var es := MemberEvents(members) + rest;
      var more := MemberEvents(members[1..]) + rest;
      var name := Some(members[0].name);
      assert es == Events(name, members[0].value) + more;
      ParseEvents(name, members[0].value, more);
      ParseMemberEvents(members[1..], rest);
      EventsStart(name, members[0].value);
      assert es[0] == Events(name, members[0].value)[0];
      assert Named(members) == [(name, members[0].value)] + Named(members[1..]);
    }
  }

  lemma {:induction false} EventsStart(name: Option<string>, v: Value)
    ensures !Events(name, v)[0].ArrayEnd? && !Events(name, v)[0].ObjectEnd?
  {
  }

  /** A callback that records its events and never fails sees exactly the full stream. */
  lemma {:induction false} RecorderSeesEverything(name: Option<string>, v: Value, log: seq<Event>)
    ensures Visit((s: seq<Event>, e: Event) => (s + [e], ZOK), log, name, v) == (log + Events(name, v), ZOK)
  {
    var f := (s: seq<Event>, e: Event) => (s + [e], ZOK);
    var es := Events(name, v);
    AbortShape(f, log, name, v);
    RecorderNeverFails(log, es);
  }

  lemma {:induction false} RecorderNeverFails(log: seq<Event>, es: seq<Event>)
    ensures
      var f := (s: seq<Event>, e: Event) => (s + [e], ZOK);
      FirstFailure(f, log, es) == |es| && Feed(f, log, es) == log + es
    decreases |es|
  {
    if es != [] {
      RecorderNeverFails(log + [es[0]], es[1..]);
      assert log + [es[0]] + es[1..] == log + es;
    } else {
      assert log + es == log;
    }
  }
}
