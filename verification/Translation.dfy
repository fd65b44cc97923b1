/** The theorems about encoding a message and decoding the result. */
module Translation {
  import opened Common
  import opened Traversal
  import opened Protobuf
  import opened Encoder
  import opened Decoder
  import opened BigStep
  import opened EncoderShape
  import opened RoundTrip

  // Json2pb after Pb2json into a new document, which holds null.
  function ThereAndBack(pool: Pool, m: Msg): Decoded {
    Decode(pool, EncodeInto(pool, Null, m).0)
  }

  /** Every message, whatever it holds: if nothing stops the decoder it returns the message's
      image; the first enum value makes it return ZCAST_FAIL; the first unresolved Any makes it
      use a null pointer; and a root Any that does not resolve leaves the document empty. */
  lemma {:induction false} ThereAndBackIs(pool: Pool, m: Msg)
    requires ValidPool(pool) && Conforms(pool, m)
    ensures
      ThereAndBack(pool, m) ==
      if Core(m).AnyRaw? then Returned(ZPARAM_INVALID, None)
      else match FirstDefect(m)
        case NoDefect => Returned(ZOK, Some(Image(pool, m)))
        case EnumField => Returned(ZCAST_FAIL, None)
        case UnresolvedAny => Undefined
  {
    WrittenCore(pool, Null, m);
    var core := Core(m);
    if !core.AnyRaw? {
      EncodedIsRegular(pool, core);
      MessageReadsBack(pool, core);
      JsonToMessage(pool, Written(pool, core));
    }
  }

  // ----- When the image is the message itself -----

  ghost predicate Faithful(pool: Pool, m: Msg)
    decreases m
  {
    m.Plain? && forall i :: 0 <= i < |m.slots| ==> FaithfulSlot(pool, m.slots[i])
  }

  ghost predicate FaithfulSlot(pool: Pool, slot: Slot)
    decreases slot
  {
    forall j :: 0 <= j < |slot.vals| ==> FaithfulVal(pool, slot.vals[j])
  }

  // No bytes, no enum, no NUL in a string, no float that double does not give back (a signalling
  // NaN), and every Any holds a message of a proper type.
  ghost predicate FaithfulVal(pool: Pool, v: Val)
    decreases v
  {
    match v
    case VBytes(_) => false
    case VEnum(_) => false
    case VString(s) => '\0' !in s
    case VFloat(f) => pool.narrow(pool.widen(f)) == f
    case VMsg(m) => if m.AnyOf? then Faithful(pool, m.content) else Faithful(pool, m)
    case _ => true
  }

  lemma {:induction false} FaithfulHasNoDefect(pool: Pool, m: Msg)
    requires Faithful(pool, m)
    ensures FirstDefect(m) == NoDefect
    decreases m, 0
  {
    FaithfulSlotsHaveNoDefect(pool, m.slots);
  }

  lemma {:induction false} FaithfulSlotsHaveNoDefect(pool: Pool, slots: seq<Slot>)
    requires forall i :: 0 <= i < |slots| ==> FaithfulSlot(pool, slots[i])
    ensures SlotsDefect(slots) == NoDefect
    decreases slots, 0
  {
    if slots != [] {
      FaithfulValsHaveNoDefect(pool, slots[0].vals);
      FaithfulSlotsHaveNoDefect(pool, slots[1..]);
    }
  }

  lemma {:induction false} FaithfulValsHaveNoDefect(pool: Pool, vals: seq<Val>)
    requires forall j :: 0 <= j < |vals| ==> FaithfulVal(pool, vals[j])
    ensures ValsDefect(vals) == NoDefect
    decreases vals, 0
  {
    if vals != [] {
      FaithfulValHasNoDefect(pool, vals[0]);
      FaithfulValsHaveNoDefect(pool, vals[1..]);
    }
  }

  lemma {:induction false} FaithfulValHasNoDefect(pool: Pool, v: Val)
    requires FaithfulVal(pool, v)
    ensures ValDefect(v) == NoDefect
    decreases v, 0
  {
    if v.VMsg? {
      var m := v.m;
      if m.AnyOf? {
        FaithfulHasNoDefect(pool, m.content);
      } else {
        FaithfulHasNoDefect(pool, m);
      }
    }
  }

  lemma {:induction false} ImageFixed(pool: Pool, m: Msg)
    requires ValidPool(pool) && Conforms(pool, m) && m.Plain? && FirstDefect(m) == NoDefect
    ensures Image(pool, m) == m <==> Faithful(pool, m)
    decreases m, 0
  {
    SlotsFixed(pool, pool.types[m.typ], m.slots);
  }

  lemma {:induction false} SlotsFixed(pool: Pool, fields: seq<Field>, slots: seq<Slot>)
    requires ValidPool(pool) && |fields| == |slots| && SlotsDefect(slots) == NoDefect
    requires forall i :: 0 <= i < |slots| ==> SlotConforms(pool, fields[i], slots[i])
    ensures ImageSlots(pool, fields, slots) == slots <==> forall i :: 0 <= i < |slots| ==> FaithfulSlot(pool, slots[i])
    decreases slots, 0
  {
    if slots != [] {
      SlotFixed(pool, fields[0], slots[0]);
      SlotsFixed(pool, fields[1..], slots[1..]);
      HeadAndTail(pool, slots);
      assert ImageSlots(pool, fields, slots)[1..] == ImageSlots(pool, fields[1..], slots[1..]);
      assert slots == [slots[0]] + slots[1..];
    }
  }

  lemma {:induction false} HeadAndTail(pool: Pool, slots: seq<Slot>)
    requires slots != []
    ensures (forall i :: 0 <= i < |slots| ==> FaithfulSlot(pool, slots[i])) <==>
            FaithfulSlot(pool, slots[0]) && forall i :: 0 <= i < |slots[1..]| ==> FaithfulSlot(pool, slots[1..][i])
  {
    assert forall i :: 0 < i < |slots| ==> slots[i] == slots[1..][i - 1];
  }

  lemma {:induction false} SlotFixed(pool: Pool, fd: Field, slot: Slot)
    requires ValidPool(pool) && SlotConforms(pool, fd, slot) && ValsDefect(slot.vals) == NoDefect
    ensures ImageSlot(pool, fd, slot) == slot <==> FaithfulSlot(pool, slot)
    decreases slot, 1
  {
    ValsFixed(pool, fd, slot.vals);
    if !fd.repeated && slot.vals != [] {
      var v := slot.vals[0];
      assert slot.vals == [v];
      assert ImageVals(pool, slot.vals) == if v.VBytes? then [] else [ImageVal(pool, v)];
    }
  }

  lemma {:induction false} ValsFixed(pool: Pool, fd: Field, vals: seq<Val>)
    requires ValidPool(pool) && ValsDefect(vals) == NoDefect
    requires forall j :: 0 <= j < |vals| ==> ValConforms(pool, fd, vals[j])
    ensures |ImageVals(pool, vals)| <= |vals|
    ensures ImageVals(pool, vals) == vals <==> forall j :: 0 <= j < |vals| ==> FaithfulVal(pool, vals[j])
    decreases vals, 0
  {
    if vals != [] {
      var v, rest := vals[0], vals[1..];
      ValFixed(pool, fd, v);
      ValsFixed(pool, fd, rest);
      assert vals == [v] + rest;
      assert forall j :: 0 < j < |vals| ==> vals[j] == rest[j - 1];
      if v.VBytes? {
        assert |ImageVals(pool, vals)| < |vals|;
      } else {
        assert ImageVals(pool, vals) == [ImageVal(pool, v)] + ImageVals(pool, rest);
        assert ImageVals(pool, vals) == vals ==> ImageVals(pool, vals)[1..] == rest;
        assert ImageVals(pool, vals)[1..] == ImageVals(pool, rest);
      }
    }
  }

  lemma {:induction false} ValFixed(pool: Pool, fd: Field, v: Val)
    requires ValidPool(pool) && ValConforms(pool, fd, v) && ValDefect(v) == NoDefect
    ensures !v.VBytes? ==> (ImageVal(pool, v) == v <==> FaithfulVal(pool, v))
    decreases v, 1
  {
    match v
    case VString(s) => CStrIdentity(s);
    case VMsg(m) =>
      if m.Plain? {
        ImageFixed(pool, m);
      } else if m.AnyOf? && m.content.Plain? {
        ImageFixed(pool, m.content);
      } else if m.AnyOf? {
        WrittenCore(pool, Null, m);
        ImageIsPlain(pool, m);
      }
    case _ =>
  }

  lemma {:induction false} ImageIsPlain(pool: Pool, m: Msg)
    requires FirstDefect(m) == NoDefect
    ensures Image(pool, m).Plain?
    decreases m
  {
    if m.AnyOf? {
      ImageIsPlain(pool, m.content);
    }
  }

  /** Round trip. Encoding a message and decoding the result gives the message back if and only
      if it is not itself an Any and holds, at every depth, no bytes and no enum value, no string
      with an embedded NUL, no float that double does not give back, and no Any that does not
      resolve or that holds another Any. */
  lemma {:induction false} RoundTripExactly(pool: Pool, m: Msg)
    requires ValidPool(pool) && Conforms(pool, m)
    ensures ThereAndBack(pool, m) == Returned(ZOK, Some(m)) <==> Faithful(pool, m)
    ensures Faithful(pool, m) ==> EncodeInto(pool, Null, m).1 == ZOK
  {
    ThereAndBackIs(pool, m);
    if Faithful(pool, m) {
      FaithfulHasNoDefect(pool, m);
    }
    if FirstDefect(m) == NoDefect {
      ImageIsPlain(pool, m);
      if m.Plain? {
        ImageFixed(pool, m);
      }
    }
  }

  /** The overload that fills a message the caller owns, of the same type, gives the message back
      under exactly the same condition. */
  lemma {:induction false} RoundTripInto(pool: Pool, m: Msg, pb: Msg)
    requires ValidPool(pool) && Conforms(pool, m) && TypeName(pb) == TypeName(m)
    ensures SwapInto(pb, ThereAndBack(pool, m)) == Returned(ZOK, Some(m)) <==> Faithful(pool, m)
  {
    RoundTripExactly(pool, m);
    ThereAndBackIs(pool, m);
  }

  // ----- Chains of Any: the normal form -----

  // A message with every chain of Any collapsed to the innermost message.
  function Collapse(m: Msg): Msg
    decreases m
  {
    match m
    case Plain(typ, slots) => Plain(typ, CollapseSlots(slots))
    case AnyOf(content) => Collapse(content)
    case AnyRaw(_) => m
  }

  function CollapseSlots(slots: seq<Slot>): (r: seq<Slot>)
    ensures |r| == |slots|
    decreases slots
  {
    if slots == [] then [] else [Slot(CollapseVals(slots[0].vals))] + CollapseSlots(slots[1..])
  }

  function CollapseVals(vals: seq<Val>): (r: seq<Val>)
    ensures |r| == |vals|
    decreases vals
  {
    if vals == [] then [] else [CollapseVal(vals[0])] + CollapseVals(vals[1..])
  }

  function CollapseVal(v: Val): Val
    decreases v
  {
    match v
    case VMsg(m) => VMsg(if m.AnyOf? then AnyOf(Collapse(m)) else Collapse(m))
    case _ => v
  }

  // What is faithful once chains are collapsed: every Any resolves, through however many others.
  ghost predicate Translatable(pool: Pool, m: Msg)
    decreases m
  {
    match m
    case Plain(_, slots) => forall i :: 0 <= i < |slots| ==> TranslatableSlot(pool, slots[i])
    case AnyOf(content) => Translatable(pool, content)
    case AnyRaw(_) => false
  }

  ghost predicate TranslatableSlot(pool: Pool, slot: Slot)
    decreases slot
  {
    forall j :: 0 <= j < |slot.vals| ==> TranslatableVal(pool, slot.vals[j])
  }

  ghost predicate TranslatableVal(pool: Pool, v: Val)
    decreases v
  {
    if v.VMsg? then Translatable(pool, v.m) else FaithfulVal(pool, v)
  }

  // All that is needed of a translatable message, by one induction: nothing stops the decoder,
  // its image is the collapsed message, that one is faithful, and both are written alike.
  lemma {:induction false} Collapses(pool: Pool, m: Msg)
    requires ValidPool(pool) && Conforms(pool, m) && Translatable(pool, m)
    ensures FirstDefect(m) == NoDefect && !Core(m).AnyRaw?
    ensures Image(pool, m) == Collapse(m) && Collapse(m).Plain?
    ensures Faithful(pool, Collapse(m))
    ensures forall before :: EncodeInto(pool, before, m).0 == EncodeInto(pool, before, Collapse(m)).0
    ensures m.Plain? ==> TypeName(Collapse(m)) == TypeName(m)
    decreases m, 0
  {
    match m
    case AnyOf(content) =>
      Collapses(pool, content);
    case Plain(typ, slots) =>
      SlotsCollapse(pool, pool.types[typ], slots);
    case AnyRaw(_) =>
  }

  lemma {:induction false} SlotsCollapse(pool: Pool, fields: seq<Field>, slots: seq<Slot>)
    requires ValidPool(pool) && |fields| == |slots|
    requires forall i :: 0 <= i < |slots| ==>
      SlotConforms(pool, fields[i], slots[i]) && TranslatableSlot(pool, slots[i])
    ensures SlotsDefect(slots) == NoDefect
    ensures ImageSlots(pool, fields, slots) == CollapseSlots(slots)
    ensures forall i :: 0 <= i < |slots| ==> FaithfulSlot(pool, CollapseSlots(slots)[i])
    ensures EncodeSlots(pool, fields, slots) == EncodeSlots(pool, fields, CollapseSlots(slots))
    decreases slots, 0
  {
    if slots != [] {
      SlotCollapses(pool, fields[0], slots[0]);
      SlotsCollapse(pool, fields[1..], slots[1..]);
      assert CollapseSlots(slots)[1..] == CollapseSlots(slots[1..]);
    }
  }

  lemma {:induction false} SlotCollapses(pool: Pool, fd: Field, slot: Slot)
    requires ValidPool(pool) && SlotConforms(pool, fd, slot) && TranslatableSlot(pool, slot)
    ensures ValsDefect(slot.vals) == NoDefect
    ensures ImageSlot(pool, fd, slot) == Slot(CollapseVals(slot.vals))
    ensures FaithfulSlot(pool, Slot(CollapseVals(slot.vals)))
    ensures EncodeSlot(pool, fd, slot) == EncodeSlot(pool, fd, Slot(CollapseVals(slot.vals)))
    decreases slot, 1
  {
    ValsCollapse(pool, fd, slot.vals);
    if slot.vals != [] {
      ValCollapses(pool, fd, slot.vals[0]);
      if !fd.repeated {
        assert slot.vals == [slot.vals[0]];
        assert CollapseVals(slot.vals) == [CollapseVal(slot.vals[0])];
      }
    }
  }

  lemma {:induction false} ValsCollapse(pool: Pool, fd: Field, vals: seq<Val>)
    requires ValidPool(pool)
    requires forall j :: 0 <= j < |vals| ==> ValConforms(pool, fd, vals[j]) && TranslatableVal(pool, vals[j])
    ensures ValsDefect(vals) == NoDefect
    ensures ImageVals(pool, vals) == CollapseVals(vals)
    ensures forall j :: 0 <= j < |vals| ==> FaithfulVal(pool, CollapseVals(vals)[j])
    ensures EncodeItems(pool, vals) == EncodeItems(pool, CollapseVals(vals))
    decreases vals, 0
  {
    if vals != [] {
      ValCollapses(pool, fd, vals[0]);
      ValsCollapse(pool, fd, vals[1..]);
      assert CollapseVals(vals)[1..] == CollapseVals(vals[1..]);
    }
  }

  lemma {:induction false} ValCollapses(pool: Pool, fd: Field, v: Val)
    requires ValidPool(pool) && ValConforms(pool, fd, v) && TranslatableVal(pool, v)
    ensures ValDefect(v) == NoDefect && !v.VBytes?
    ensures ImageVal(pool, v) == CollapseVal(v)
    ensures FaithfulVal(pool, CollapseVal(v))
    ensures EncodeItem(pool, v) == EncodeItem(pool, CollapseVal(v))
    ensures !IsDefault(v) ==> !IsDefault(CollapseVal(v))
    decreases v, 1
  {
    match v
    case VMsg(m) => Collapses(pool, m);
    case VString(s) => CStrIdentity(s);
    case _ =>
  }

  /** Normal form. For every message all of whose Anys resolve, Any directly inside Any and an Any
      at the root included, decoding the encoding gives the message with its chains of Any
      collapsed, encoding that again gives the same JSON, and from then on it is a round trip. */
  lemma {:induction false} NormalForm(pool: Pool, m: Msg)
    requires ValidPool(pool) && Conforms(pool, m) && Translatable(pool, m)
    ensures ThereAndBack(pool, m) == Returned(ZOK, Some(Collapse(m)))
    ensures EncodeInto(pool, Null, Collapse(m)).0 == EncodeInto(pool, Null, m).0
    ensures ThereAndBack(pool, Collapse(m)) == Returned(ZOK, Some(Collapse(m)))
  {
    Collapses(pool, m);
    ThereAndBackIs(pool, m);
  }
}
