/** JSON tree to message tree: the stack machine Json2field and Json2pb around it. */
module Decoder {
  import opened Common
  import opened Traversal
  import opened Dom
  import opened Protobuf

  // An entry of the Msgs vector. The message pointer of an open object is null until its type
  // is known; that of an open array is never initialised.
  datatype Frame =
    | MsgFrame(key: Option<string>, msg: Option<Msg>)
    | ArrFrame(key: Option<string>)

  // The vector, or None once the code has done something C++ leaves undefined.
  type Stack = Option<seq<Frame>>

  // ----- One event as a function of the stack -----

  function Last(fs: seq<Frame>): Frame
    requires fs != []
  {
    fs[|fs| - 1]
  }

  function CreateMessage(pool: Pool, name: string, fs: seq<Frame>): (seq<Frame>, Code)
    requires fs != []
  {
    if !Resolves(pool, name) then (fs, ZCAST_FAIL)
    else
      var key :=
        if Last(fs).key.Some? then Last(fs).key
        else if |fs| >= 2 then fs[|fs| - 2].key
        else Some(name);
      (fs[|fs| - 1 := MsgFrame(key, Some(New(pool, name)))], ZOK)
  }

  // What a leaf writes into a field of a given kind: nothing and a code, or a value.
  function Translate(pool: Pool, kind: Kind, v: Value): (Option<Val>, Code) {
    match v
    case Str(s) =>
      if kind == KString then (Some(VString(CStr(s))), ZOK)
      else if kind == KBytes then (Some(VBytes(CStr(s))), ZOK)
      else (None, ZPARAM_INVALID)
    case Num(num) =>
      (match kind
       case KDouble => (if IsDouble(v) then Some(VDouble(num.d)) else None, ZOK)
       case KFloat => (if IsDouble(v) then Some(VFloat(pool.narrow(num.d))) else None, ZOK)
       case KInt32 => (if IsInt(v) then Some(VInt32(num.i)) else None, ZOK)
       case KUint32 => (if IsUint(v) then Some(VUint32(num.i)) else None, ZOK)
       case KUint64 => (if IsUint64(v) then Some(VUint64(num.i)) else None, ZOK)
       case KInt64 => (if IsInt64(v) then Some(VInt64(num.i)) else None, ZOK)
       case _ => (None, ZCAST_FAIL))
    case True => if kind == KBool then (Some(VBool(true)), ZOK) else (None, ZPARAM_INVALID)
    case False => if kind == KBool then (Some(VBool(false)), ZOK) else (None, ZPARAM_INVALID)
    case _ => (None, ZNOT_SUPPORT)
  }

  // The index of a field of a message's type, or None.
  function FieldOf(pool: Pool, m: Msg, name: string): Option<nat> {
    if m.Plain? && m.typ in pool.types && |m.slots| == |pool.types[m.typ]| then
      var i := FindField(pool.types[m.typ], name);
      if i < |m.slots| then Some(i) else None
    else None
  }

  function StoreAt(pool: Pool, m: Msg, i: nat, v: Val): Msg
    requires m.Plain? && m.typ in pool.types && i < |m.slots| == |pool.types[m.typ]|
  {
    m.(slots := m.slots[i := Store(pool.types[m.typ][i], m.slots[i], v)])
  }

  function AssignLeaf(pool: Pool, m: Msg, name: string, v: Value): (Msg, Code)
  {
    match FieldOf(pool, m, name)
    case None => (m, ZPARAM_INVALID)
    case Some(i) =>
      var (val, code) := Translate(pool, pool.types[m.typ][i].kind, v);
      (if val.Some? then StoreAt(pool, m, i, val.value) else m, code)
  }

  // SetMessage. The leaf goes into the message of the frame it is named in, or, without a
  // name, into the one below the array frame, under the array's name.
  function SetMessage(pool: Pool, name: Option<string>, v: Value, fs: seq<Frame>): (Stack, Code) {
    if fs == [] || (name.None? && |fs| < 2) then (None, UNDEFINED)
    else
      var key := if name.Some? then Some(CStr(name.value)) else Last(fs).key;
      var at := if name.Some? then |fs| - 1 else |fs| - 2;
      if fs[at].ArrFrame? then (None, UNDEFINED)
      else
        var msg := fs[at].msg;
        if msg.None? && key.Some? && !IsAtName(key.value) then (Some(fs), ZPARAM_INVALID)
        else if v.Str? && key.Some? && IsAtName(key.value) then
          var (fs', c) := CreateMessage(pool, CStr(v.str), fs);
          (Some(fs'), c)
        else if msg.None? || key.None? then (None, UNDEFINED)
        else
          var (m, c) := AssignLeaf(pool, msg.value, key.value, v);
          (Some(fs[at := MsgFrame(fs[at].key, Some(m))]), c)
  }

  // MergeMessage: the parent afterwards, or None when a null pointer is used, the field is no
  // message field, or the two messages are of different types, none of which protobuf survives.
  function MergeMessage(pool: Pool, key: Option<string>, parent: Option<Msg>, child: Option<Msg>): Option<Msg> {
    if parent.None? || key.None? then None
    else match FieldOf(pool, parent.value, key.value)
      case None => parent
      case Some(i) =>
        var kind := pool.types[parent.value.typ][i].kind;
        if !kind.KMessage? || child.None? then None
        else if kind.typ == NAME_ANY then Some(StoreAt(pool, parent.value, i, VMsg(AnyOf(child.value))))
        else if kind.typ != TypeName(child.value) then None
        else Some(StoreAt(pool, parent.value, i, VMsg(child.value)))
  }

  // The merge into the frame at one position of the stack.
  function MergeAt(pool: Pool, fs: seq<Frame>, at: nat, key: Option<string>, child: Option<Msg>): Stack
    requires at < |fs| && fs[at].MsgFrame?
  {
    match MergeMessage(pool, key, fs[at].msg, child)
    case None => None
    case Some(m) => Some(fs[at := MsgFrame(fs[at].key, Some(m))])
  }

  function CKey(name: Option<string>): Option<string> {
    if name.Some? then Some(CStr(name.value)) else None
  }

  function Step(pool: Pool, fs: seq<Frame>, e: Event): (Stack, Code) {
    match e
    case Leaf(name, v) => if v.Null? then (Some(fs), ZOK) else SetMessage(pool, name, v, fs)
    case ArrayBegin(name) => (Some(fs + [ArrFrame(CKey(name))]), ZOK)
    case ArrayEnd(_) => if fs == [] then (None, UNDEFINED) else (Some(fs[..|fs| - 1]), ZOK)
    case ObjectBegin(name) => (Some(fs + [MsgFrame(CKey(name), None)]), ZOK)
    case ObjectEnd(_) =>
      if |fs| <= 1 then (Some(fs), ZOK) // the root message stays
      else
        var top, below := Last(fs), fs[..|fs| - 1];
        if top.ArrFrame? then (Some(below), ZPARAM_INVALID)
        else if Last(below).MsgFrame? then (MergeAt(pool, below, |below| - 1, top.key, top.msg), ZOK)
        else if |below| < 2 || below[|below| - 2].ArrFrame? then (Some(below), ZPARAM_INVALID)
        else (MergeAt(pool, below, |below| - 2, top.key, top.msg), ZOK)
  }

  function OnEvent(pool: Pool): Callback<Stack> {
    (s: Stack, e: Event) => if s.None? then (s, UNDEFINED) else Step(pool, s.value, e)
  }

  datatype Decoded = Undefined | Returned(code: Code, pb: Option<Msg>)

  function Result(final: (Stack, Code)): Decoded {
    match final.0
    case None => Undefined
    case Some(fs) =>
      if final.1 != ZOK then Returned(final.1, None)
      else if |fs| != 1 then Returned(ZPARAM_INVALID, None)
      else if fs[0].ArrFrame? then Undefined
      else Returned(ZOK, fs[0].msg)
  }

  function Decode(pool: Pool, json: Value): Decoded {
    Result(Visit(OnEvent(pool), Some([]), None, json))
  }

  // Where the end of an object cannot come: on an array, or in an array that is in no message.
  predicate OutOfPlace(fs: seq<Frame>) {
    && |fs| > 1
    && (fs[|fs| - 1].ArrFrame? || (fs[|fs| - 2].ArrFrame? && (|fs| == 2 || fs[|fs| - 3].ArrFrame?)))
  }

  // ----- The same as code that pushes, pops and writes through the vector -----

  method Json2field(pool: Pool, e: Event, msgs: Hint<Stack>) returns (ret: Code)
    requires msgs.state.Some?
    modifies msgs
    ensures (msgs.state, ret) == Step(pool, old(msgs.state).value, e)
    ensures !e.Leaf? && msgs.state.Some? ==>
      ret == if e.ObjectEnd? && OutOfPlace(old(msgs.state).value) then ZPARAM_INVALID else ZOK
  {
    var fs := msgs.state.value;
    ret := ZPARAM_INVALID;
    match e {
      case Leaf(name, v) =>
        if v.Null? {
          ret := ZOK;
        } else {
          ret := SetMessageInPlace(pool, name, v, msgs);
        }
      case ArrayBegin(name) =>
        msgs.state := Some(fs + [ArrFrame(CKey(name))]);
        ret := ZOK;
      case ArrayEnd(_) =>
        if fs == [] {
          msgs.state := None;
          return UNDEFINED;
        }
        msgs.state := Some(fs[..|fs| - 1]);
        ret := ZOK;
      case ObjectBegin(name) =>
        msgs.state := Some(fs + [MsgFrame(CKey(name), None)]);
        ret := ZOK;
      case ObjectEnd(_) =>
        if |fs| <= 1 {
          return ZOK;
        }
        var msg := fs[|fs| - 1];
        fs := fs[..|fs| - 1];
        msgs.state := Some(fs);
        if msg.ArrFrame? {
          return;
        }
        var parent := fs[|fs| - 1];
        if parent.ArrFrame? {
          if |fs| < 2 {
            return;
          }
          var father := fs[|fs| - 2];
          if father.ArrFrame? {
            return;
          }
          MergeInPlace(pool, |fs| - 2, msg.key, msg.msg, msgs);
        } else {
          MergeInPlace(pool, |fs| - 1, msg.key, msg.msg, msgs);
        }
        ret := ZOK;
    }
  }

  method MergeInPlace(pool: Pool, at: nat, key: Option<string>, child: Option<Msg>, msgs: Hint<Stack>)
    requires msgs.state.Some? && at < |msgs.state.value| && msgs.state.value[at].MsgFrame?
    modifies msgs
    ensures msgs.state == MergeAt(pool, old(msgs.state).value, at, key, child)
  {
    var fs := msgs.state.value;
    if fs[at].msg.None? || key.None? {
      msgs.state := None;
      return;
    }
    var parent := fs[at].msg.value;
    var field := FieldOf(pool, parent, key.value);
    if field.None? {
      assert fs == fs[at := MsgFrame(fs[at].key, Some(parent))];
      return;
    }
    var fd := pool.types[parent.typ][field.value];
    if !fd.kind.KMessage? || child.None? {
      msgs.state := None;
      return;
    }
    var merged := child.value;
    if fd.kind.typ == NAME_ANY {
      merged := AnyOf(child.value);
    } else if fd.kind.typ != TypeName(child.value) {
      msgs.state := None;
      return;
    }
    var m := StoreAt(pool, parent, field.value, VMsg(merged));
    msgs.state := Some(fs[at := MsgFrame(fs[at].key, Some(m))]);
  }

  method SetMessageInPlace(pool: Pool, name: Option<string>, v: Value, msgs: Hint<Stack>) returns (ret: Code)
    requires msgs.state.Some?
    modifies msgs
    ensures (msgs.state, ret) == SetMessage(pool, name, v, old(msgs.state).value)
  {
    var fs := msgs.state.value;
    if |fs| < 1 || (name.None? && |fs| < 2) {
      msgs.state := None;
      return UNDEFINED;
    }
    var at := |fs| - 1;
    var key := fs[at].key;
    if name.None? {
      at := |fs| - 2;
    } else {
      key := Some(CStr(name.value));
    }
    if fs[at].ArrFrame? {
      msgs.state := None;
      return UNDEFINED;
    }
    var msg := fs[at].msg;
    if msg.None? && key.Some? && !IsAtName(key.value) {
      return ZPARAM_INVALID;
    }
    if v.Str? && key.Some? && IsAtName(key.value) {
      var r := CreateMessage(pool, CStr(v.str), fs);
      msgs.state, ret := Some(r.0), r.1;
      return;
    }
    if msg.None? || key.None? {
      msgs.state := None;
      return UNDEFINED;
    }
    var r := AssignLeaf(pool, msg.value, key.value, v);
    msgs.state, ret := Some(fs[at := MsgFrame(fs[at].key, Some(r.0))]), r.1;
  }

  method Json2pb(pool: Pool, json: Value) returns (r: Decoded)
    ensures r == Decode(pool, json)
  {
    var msgs := new Hint<Stack>(Some([]));
    var ret := ForEach(json, OnEvent(pool), msgs);
    match msgs.state {
      case None => return Undefined;
      case Some(fs) =>
        if ret == ZOK {
          if |fs| == 1 {
            return if fs[0].ArrFrame? then Undefined else Returned(ZOK, fs[0].msg);
          }
          ret := ZPARAM_INVALID;
        }
        return Returned(ret, None);
    }
  }

  // The overload that swaps the result into a message the caller owns. Protobuf does not
  // survive a null pointer or another message type there.
  function SwapInto(pb: Msg, r: Decoded): Decoded {
    if r.Undefined? then r
    else if r.code != ZOK then Returned(r.code, Some(pb))
    else if r.pb.None? || TypeName(r.pb.value) != TypeName(pb) then Undefined
    else r
  }

  method Json2pbInto(pool: Pool, json: Value, pb: Msg) returns (r: Decoded)
    ensures r == SwapInto(pb, Decode(pool, json))
    ensures
      var d := Decode(pool, json);
      && (d.Returned? && d.code != ZOK ==> r == Returned(d.code, Some(pb)))
      && (d.Returned? && d.code == ZOK ==>
            r == if d.pb.Some? && TypeName(d.pb.value) == TypeName(pb) then Returned(ZOK, d.pb) else Undefined)
  {
    var msgs := new Hint<Stack>(Some([]));
    var ret := ForEach(json, OnEvent(pool), msgs);
    match msgs.state {
      case None => return Undefined;
      case Some(fs) =>
        if ret == ZOK {
          if |fs| == 1 {
            if fs[0].ArrFrame? || fs[0].msg.None? || TypeName(fs[0].msg.value) != TypeName(pb) {
              return Undefined;
            }
            return Returned(ZOK, fs[0].msg);
          }
          ret := ZPARAM_INVALID;
        }
        return Returned(ret, Some(pb));
    }
  }
}
