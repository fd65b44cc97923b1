/** The ring of free message objects, MsgPoolRing. */
module MessagePool {
  import opened Common

  // ----- Bits -----

  // Bitwise and of two non-negative numbers.
  function BitAnd(a: nat, b: nat): nat
    decreases a
  {
    if a == 0 || b == 0 then 0
    else (if a % 2 == 1 && b % 2 == 1 then 1 else 0) + 2 * BitAnd(a / 2, b / 2)
  }

  function LowBit(x: nat): (b: nat)
    requires x > 0
    ensures 1 <= b <= x
  {
    if x % 2 == 1 then 1 else 2 * LowBit(x / 2)
  }

  predicate IsPow2(x: nat) {
    x == 1 || (x > 1 && x % 2 == 0 && IsPow2(x / 2))
  }

  // x & (x - 1) clears the lowest bit that is set.
  lemma {:induction false} ClearsLowBit(x: nat)
    requires x > 0
    ensures BitAnd(x, x - 1) == x - LowBit(x)
    decreases x
  {
    if x % 2 == 1 {
      AndSelf(x / 2);
    } else {
      ClearsLowBit(x / 2);
      assert (x - 1) / 2 == x / 2 - 1;
    }
  }

  lemma {:induction false} AndSelf(x: nat)
    ensures BitAnd(x, x) == x
    decreases x
  {
    if x > 0 {
      AndSelf(x / 2);
    }
  }

  lemma {:induction false} LowBitGrows(x: nat)
    requires x > 0 && x - LowBit(x) > 0
    ensures LowBit(x - LowBit(x)) >= 2 * LowBit(x)
    decreases x
  {
    if x % 2 == 0 {
      LowBitGrows(x / 2);
      assert x - LowBit(x) == 2 * (x / 2 - LowBit(x / 2));
    }
  }

  lemma {:induction false} OnlyLowBit(x: nat)
    requires x > 0 && LowBit(x) == x
    ensures IsPow2(x)
    decreases x
  {
    if x > 1 {
      OnlyLowBit(x / 2);
    }
  }

  lemma {:induction false} ModUnique(x: int, d: int, q: int, r: int)
    requires 0 <= r < d && x == d * q + r
    ensures x % d == r && x / d == q
  {
    var q', r' := x / d, x % d;
    assert x == d * q' + r';
    assert d * (q - q') == r' - r;
    if q > q' {
      assert d * (q - q') >= d by { MulAtLeast(d, q - q'); }
    } else if q < q' {
      assert d * (q' - q) >= d by { MulAtLeast(d, q' - q); }
    }
  }

  lemma {:induction false} MulAtLeast(d: int, k: int)
    requires d > 0 && k >= 1
    ensures d * k >= d
  {
  }

  lemma {:induction false} AndStep(x: nat, c: nat)
    requires x > 0 && c > 1 && c % 2 == 0
    ensures BitAnd(x, c - 1) == x % 2 + 2 * BitAnd(x / 2, c / 2 - 1)
  {
    assert (c - 1) / 2 == c / 2 - 1 && (c - 1) % 2 == 1;
  }

  /** Masking with one less than a power of two is the remainder by that power. */
  lemma {:induction false} MaskIsMod(x: nat, c: nat)
    requires IsPow2(c)
    ensures BitAnd(x, c - 1) == x % c
    decreases c
  {
    if x == 0 {
      ModUnique(0, c, 0, 0);
    } else if c > 1 {
      AndStep(x, c);
      MaskIsMod(x / 2, c / 2);
      HalfMod(x, c / 2);
    }
  }

  lemma {:induction false} HalfMod(x: nat, d: nat)
    requires d > 0
    ensures x % (2 * d) == 2 * ((x / 2) % d) + x % 2
  {
    var q, r := (x / 2) / d, (x / 2) % d;
    assert (2 * d) * q == 2 * (d * q);
    assert x == (2 * d) * q + (2 * r + x % 2);
    ModUnique(x, 2 * d, q, 2 * r + x % 2);
  }

  // ----- Where the i-th free object stands -----

  const WORD := 0x1_0000_0000 // int arithmetic wraps here

  // Index of the i-th entry of a ring that starts at `start`.
  function At(start: nat, i: nat, c: nat): nat {
    if start + i < c then start + i else start + i - c
  }

  lemma {:induction false} PowDivides(c: nat, n: nat)
    requires IsPow2(c) && IsPow2(n) && c <= n
    ensures n % c == 0
    decreases c
  {
    if c > 1 {
      PowDivides(c / 2, n / 2);
      var m := (n / 2) / (c / 2);
      assert n / 2 == (c / 2) * m;
      assert n == c * m + 0;
      ModUnique(n, c, m, 0);
    } else {
      ModUnique(n, 1, n, 0);
    }
  }

  lemma {:induction false} MulAssoc(a: int, b: int, c: int)
    ensures (a * b) * c == a * (b * c)
  {
  }

  lemma {:induction false} MulDistributes(a: int, b: int, c: int)
    ensures a * (b + c) == a * b + a * c
  {
  }

  lemma {:induction false} PowTimesPow(a: nat, b: nat)
    requires IsPow2(a) && IsPow2(b)
    ensures IsPow2(a * b)
    decreases a
  {
    if a > 1 {
      PowTimesPow(a / 2, b);
      MulAssoc(2, a / 2, b);
    }
  }

  lemma {:induction false} WordIsPow2()
    ensures IsPow2(WORD)
  {
    assert IsPow2(4) && IsPow2(16);
    PowTimesPow(16, 16);
    PowTimesPow(0x100, 0x100);
    PowTimesPow(0x1_0000, 0x1_0000);
  }

  // Wrapping the counter does not change its remainder.
  lemma {:induction false} WrapKeepsMod(x: nat, c: nat)
    requires IsPow2(c) && c <= WORD
    ensures (x % WORD) % c == x % c
  {
    WordIsPow2();
    PowDivides(c, WORD);
    RemainderOfRemainder(x, WORD, c);
  }

  lemma {:induction false} RemainderOfRemainder(x: nat, n: nat, c: nat)
    requires 0 < c && 0 < n && n % c == 0
    ensures (x % n) % c == x % c
  {
    var m, q, r := n / c, x / n, x % n;
    assert n == c * m;
    MulAssoc(c, m, q);
    MulDistributes(c, m * q, r / c);
    ModUnique(x, c, m * q + r / c, r % c);
  }

  lemma {:induction false} ModAdd(x: nat, i: nat, c: nat)
    requires i < c
    ensures (x + i) % c == At(x % c, i, c)
  {
    var q, r := x / c, x % c;
    if r + i < c {
      ModUnique(x + i, c, q, r + i);
    } else {
      MulDistributes(c, q, 1);
      ModUnique(x + i, c, q + 1, r + i - c);
    }
  }

  /** The masked index of the code, for a counter that may have wrapped, is the ring index. */
  lemma {:induction false} MaskedIndex(pos: nat, i: nat, c: nat)
    requires IsPow2(c) && c <= WORD && i < c
    ensures BitAnd((pos + i) % WORD, c - 1) == At(pos % c, i, c) < c
  {
    MaskIsMod((pos + i) % WORD, c);
    WrapKeepsMod(pos + i, c);
    ModAdd(pos, i, c);
  }

  // The entry after the first becomes the first.
  lemma {:induction false} NextStart(pos: nat, c: nat)
    requires IsPow2(c) && c <= WORD
    ensures
      var start := ((pos + 1) % WORD) % c;
      forall i: nat :: i + 1 < c ==> At(start, i, c) == At(pos % c, i + 1, c)
  {
    if c > 1 {
      WrapKeepsMod(pos + 1, c);
      ModAdd(pos, 1, c);
    }
  }

  // A ring of objects laid out in a buffer from the counter's index on.
  ghost predicate RingHolds<T>(buf: seq<T>, pos: nat, c: nat, ring: seq<T>) {
    && IsPow2(c) && c <= WORD && |buf| == c && |ring| <= c
    && forall i :: 0 <= i < |ring| ==> buf[At(pos % c, i, c)] == ring[i]
  }

  lemma {:induction false} RingTake<T>(buf: seq<T>, pos: nat, c: nat, ring: seq<T>)
    requires RingHolds(buf, pos, c, ring) && ring != []
    ensures BitAnd(pos % WORD, c - 1) < c && buf[BitAnd(pos % WORD, c - 1)] == ring[0]
    ensures RingHolds(buf, (pos + 1) % WORD, c, ring[1..])
  {
    MaskedIndex(pos, 0, c);
    NextStart(pos, c);
    var start := ((pos + 1) % WORD) % c;
    forall i | 0 <= i < |ring[1..]| ensures buf[At(start, i, c)] == ring[1..][i] {
      assert ring[1..][i] == ring[i + 1];
    }
  }

  lemma {:induction false} RingPut<T>(buf: seq<T>, pos: nat, c: nat, ring: seq<T>, o: T)
    requires RingHolds(buf, pos, c, ring) && |ring| < c
    ensures
      var i := BitAnd((pos + |ring|) % WORD, c - 1);
      i < c && RingHolds(buf[i := o], pos, c, ring + [o])
  {
    MaskedIndex(pos, |ring|, c);
  }

  // ----- The account of all objects ever created -----

  datatype Account<T> = Account(created: set<T>, held: set<T>, ring: seq<T>, deleted: seq<T>, lost: set<T>)

  function Elems<T>(s: seq<T>): set<T> {
    set o | o in s
  }

  ghost predicate NoDuplicates<T>(s: seq<T>) {
    forall i, j :: 0 <= i < j < |s| ==> s[i] != s[j]
  }

  // Every created object is in exactly one place, and stands there once.
  ghost predicate Balanced<T>(a: Account<T>) {
    && a.created == a.held + Elems(a.ring) + Elems(a.deleted) + a.lost
    && a.held !! Elems(a.ring) !! Elems(a.deleted) !! a.lost
    && NoDuplicates(a.ring) && NoDuplicates(a.deleted)
  }

  // What clients may do: take the oldest free object, or a new one when there is none, give back
  // an object they hold, and have an empty ring filled with new objects, of which o is lost.
  datatype Op<T> = AllocOp(o: T) | FreeOp(o: T) | PreAllocOp(ring: seq<T>, o: T)

  ghost predicate Allowed<T>(a: Account<T>, op: Op<T>, capacity: nat) {
    match op
    case AllocOp(o) => if a.ring != [] then o == a.ring[0] else o !in a.created
    case FreeOp(o) => o in a.held
    case PreAllocOp(ring, o) =>
      && a.ring == [] && |ring| < capacity && NoDuplicates(ring)
      && o !in ring && o !in a.created && forall x :: x in ring ==> x !in a.created
  }

  ghost function Perform<T>(a: Account<T>, op: Op<T>, capacity: nat): Account<T>
    requires Allowed(a, op, capacity)
  {
    match op
    case AllocOp(o) =>
      if a.ring != [] then a.(held := a.held + {o}, ring := a.ring[1..])
      else a.(held := a.held + {o}, created := a.created + {o})
    case FreeOp(o) =>
      if |a.ring| < capacity then a.(held := a.held - {o}, ring := a.ring + [o])
      else a.(held := a.held - {o}, deleted := a.deleted + [o])
    case PreAllocOp(ring, o) => Filled(a, ring, o)
  }

  // The destructor deletes what is in the ring.
  function Destroyed<T>(a: Account<T>): Account<T> {
    a.(ring := [], deleted := a.deleted + a.ring)
  }

  // Pre-allocation: new objects in the ring, and one that is in none of the places.
  function Filled<T>(a: Account<T>, ring: seq<T>, o: T): Account<T> {
    a.(created := a.created + Elems(ring) + {o}, ring := ring, lost := a.lost + {o})
  }

  lemma {:induction false} FilledBalances<T>(a: Account<T>, ring: seq<T>, o: T)
    requires Balanced(a) && a.ring == [] && NoDuplicates(ring) && o !in ring && o !in a.created
    requires forall x :: x in ring ==> x !in a.created
    ensures Balanced(Filled(a, ring, o))
  {
  }

  lemma {:induction false} PerformBalances<T>(a: Account<T>, op: Op<T>, capacity: nat)
    requires Balanced(a) && Allowed(a, op, capacity) && |a.ring| <= capacity
    ensures Balanced(Perform(a, op, capacity)) && |Perform(a, op, capacity).ring| <= capacity
  {
    match op
    case AllocOp(o) =>
      if a.ring != [] {
        assert Elems(a.ring) == {o} + Elems(a.ring[1..]) && o !in a.ring[1..];
      }
    case FreeOp(o) =>
      assert Elems(a.ring + [o]) == Elems(a.ring) + {o};
      assert Elems(a.deleted + [o]) == Elems(a.deleted) + {o};
    case PreAllocOp(ring, o) =>
      FilledBalances(a, ring, o);
  }

  lemma {:induction false} TakeFirst<T>(a: Account<T>, o: T, capacity: nat)
    requires Balanced(a) && a.ring != [] && a.ring[0] == o && |a.ring| <= capacity
    ensures Allowed(a, AllocOp(o), capacity) && Balanced(Perform(a, AllocOp(o), capacity))
    ensures Perform(a, AllocOp(o), capacity).ring == a.ring[1..]
  {
    PerformBalances(a, AllocOp(o), capacity);
  }

  ghost predicate CanPerform<T>(a: Account<T>, ops: seq<Op<T>>, capacity: nat)
    decreases |ops|
  {
    ops == [] || (Allowed(a, ops[0], capacity) && CanPerform(Perform(a, ops[0], capacity), ops[1..], capacity))
  }

  ghost function PerformAll<T>(a: Account<T>, ops: seq<Op<T>>, capacity: nat): Account<T>
    requires CanPerform(a, ops, capacity)
    decreases |ops|
  {
    if ops == [] then a else PerformAll(Perform(a, ops[0], capacity), ops[1..], capacity)
  }

  lemma {:induction false} DestroyedBalances<T>(a: Account<T>)
    requires Balanced(a)
    ensures Balanced(Destroyed(a)) && Destroyed(a).created == a.held + Elems(Destroyed(a).deleted) + a.lost
  {
    assert Elems(a.deleted + a.ring) == Elems(a.deleted) + Elems(a.ring);
    assert forall i, j :: 0 <= i < |a.deleted| && 0 <= j < |a.ring| ==>
      a.deleted[i] in Elems(a.deleted) && a.ring[j] in Elems(a.ring);
  }

  // The objects that the pre-allocations of a run lose.
  function LostBy<T>(ops: seq<Op<T>>): set<T> {
    if ops == [] then {} else (if ops[0].PreAllocOp? then {ops[0].o} else {}) + LostBy(ops[1..])
  }

  /** Conservation over every run of clients that free only what they hold: each object created is
      held, in the ring, deleted or lost, in exactly one of these and once; each pre-allocation
      loses exactly one and nothing else loses any; and the destructor deletes each object of the
      ring once, so that afterwards every object but the lost ones is held or deleted once. */
  lemma {:induction false} RunsBalance<T>(a: Account<T>, ops: seq<Op<T>>, capacity: nat)
    requires Balanced(a) && |a.ring| <= capacity && CanPerform(a, ops, capacity)
    ensures
      var b := PerformAll(a, ops, capacity);
      && Balanced(b) && |b.ring| <= capacity && b.lost == a.lost + LostBy(ops)
      && Balanced(Destroyed(b)) && Destroyed(b).created == b.held + Elems(Destroyed(b).deleted) + b.lost
    decreases |ops|
  {
    if ops == [] {
      DestroyedBalances(a);
    } else {
      PerformBalances(a, ops[0], capacity);
      RunsBalance(Perform(a, ops[0], capacity), ops[1..], capacity);
    }
  }

  // What goes into the ring during a run, in order: objects given back while it is not full, and
  // those of pre-allocations.
  ghost function GoesIn<T>(a: Account<T>, ops: seq<Op<T>>, capacity: nat): seq<T>
    requires CanPerform(a, ops, capacity)
    decreases |ops|
  {
    if ops == [] then []
    else
      (match ops[0]
       case AllocOp(_) => []
       case FreeOp(o) => if |a.ring| < capacity then [o] else []
       case PreAllocOp(ring, _) => ring)
      + GoesIn(Perform(a, ops[0], capacity), ops[1..], capacity)
  }

  // What is handed out from the ring during a run, in order; the other objects handed out are new.
  ghost function HandedOut<T>(a: Account<T>, ops: seq<Op<T>>, capacity: nat): seq<T>
    requires CanPerform(a, ops, capacity)
    decreases |ops|
  {
    if ops == [] then []
    else
      (if ops[0].AllocOp? && ops[0].o in a.created then [ops[0].o] else [])
      + HandedOut(Perform(a, ops[0], capacity), ops[1..], capacity)
  }

  /** The ring is first in, first out over every run: what is handed out of it is, in order, what was
      in it at first and what went in since, and the rest of that is in it at the end. */
  lemma {:induction false} RingIsFifo<T>(a: Account<T>, ops: seq<Op<T>>, capacity: nat)
    requires Balanced(a) && |a.ring| <= capacity && CanPerform(a, ops, capacity)
    ensures a.ring + GoesIn(a, ops, capacity) == HandedOut(a, ops, capacity) + PerformAll(a, ops, capacity).ring
    decreases |ops|
  {
    if ops != [] {
      var b := Perform(a, ops[0], capacity);
      PerformBalances(a, ops[0], capacity);
      RingIsFifo(b, ops[1..], capacity);
      RingStep(a, ops[0], capacity, GoesIn(b, ops[1..], capacity), HandedOut(b, ops[1..], capacity),
               PerformAll(a, ops, capacity).ring);
    }
  }

  lemma {:induction false} RingStep<T>(
      a: Account<T>, op: Op<T>, capacity: nat, goesIn: seq<T>, out: seq<T>, end: seq<T>)
    requires Balanced(a) && |a.ring| <= capacity && Allowed(a, op, capacity)
    requires Perform(a, op, capacity).ring + goesIn == out + end
    ensures
      match op
      case AllocOp(o) => a.ring + ([] + goesIn) == ((if o in a.created then [o] else []) + out) + end
      case FreeOp(o) => a.ring + ((if |a.ring| < capacity then [o] else []) + goesIn) == ([] + out) + end
      case PreAllocOp(ring, _) => a.ring + (ring + goesIn) == ([] + out) + end
  {
    match op
    case AllocOp(o) =>
      assert [] + goesIn == goesIn && [] + out == out;
      if a.ring != [] {
        assert a.ring[0] in Elems(a.ring);
        assert a.ring + goesIn == [o] + (a.ring[1..] + goesIn);
        assert [o] + out + end == [o] + (out + end);
      }
    case FreeOp(o) =>
      assert [] + goesIn == goesIn && [] + out == out;
      assert a.ring + ([o] + goesIn) == a.ring + [o] + goesIn;
    case PreAllocOp(ring, _) =>
      assert [] + out == out && a.ring + (ring + goesIn) == ring + goesIn;
  }

  // ----- The pool -----

  class Obj {
    var releases: nat // how often Release was called

    constructor ()
      ensures releases == 0
    {
      releases := 0;
    }

    method Release()
      modifies this
      ensures releases == old(releases) + 1
    {
      releases := releases + 1;
    }
  }

  class MsgPoolRing {
    var buf: array<Obj?>
    var capacity: nat
    var mask: nat
    var pos: nat // the two's complement counter, read as an unsigned word
    var size: nat
    ghost var account: Account<Obj>

    ghost predicate Valid()
      reads this, buf
    {
      && mask == capacity - 1 && buf.Length == capacity && pos < WORD
      && |account.ring| == size && RingHolds(buf[..], pos, capacity, account.ring)
      && Balanced(account)
    }

    // The caller asks for a positive number of objects that can be doubled in an int.
    constructor (n: nat)
      requires 0 < n < 0x4000_0000
      ensures Valid() && fresh(buf)
      ensures n < capacity <= 2 * n
      ensures account == Account({}, {}, [], [], {})
    {
      var bits, cap := 2 * n, 1;
      while bits > 0
        invariant bits > 0 ==> bits <= 2 * n && 2 * n - bits < LowBit(bits)
        invariant bits < 2 * n ==> 0 < cap <= 2 * n && 2 * n - cap < LowBit(cap) && bits == cap - LowBit(cap)
        decreases bits
      {
        cap := bits;
        ClearsLowBit(bits);
        if bits > LowBit(bits) {
          LowBitGrows(bits);
        }
        bits := BitAnd(bits, bits - 1);
      }
      OnlyLowBit(cap);
      buf := new Obj?[cap](_ => null);
      capacity, mask, pos, size := cap, cap - 1, 0, 0;
      account := Account({}, {}, [], [], {});
    }

    // `memory` tells whether new succeeds if it is called. No object is a null pointer.
    method Alloc(memory: bool) returns (t: Option<Obj>, ret: Code)
      requires Valid()
      modifies this`pos, this`size, this`account
      ensures Valid()
      ensures ret == ZOK <==> old(size) > 0 || memory
      ensures ret == ZOK ==>
        && t.Some? && Allowed(old(account), AllocOp(t.value), capacity)
        && account == Perform(old(account), AllocOp(t.value), capacity)
      ensures ret == ZOK ==> account.held == old(account.held) + {t.value} && account.deleted == old(account.deleted)
      ensures ret == ZOK && old(size) == 0 ==> fresh(t.value) && account.ring == []
      ensures old(size) > 0 ==> [t.value] + account.ring == old(account.ring)
      ensures ret != ZOK ==> ret == ZMEM_INSUFFICIENT && t == None && account == old(account)
    {
      if size > 0 {
        var o := AllocFromRing();
        return Some(o), ZOK;
      } else {
        if !memory {
          return None, ZMEM_INSUFFICIENT;
        }
        var o := AllocNew();
        return Some(o), ZOK;
      }
    }

    method AllocFromRing() returns (o: Obj)
      requires Valid() && size > 0
      modifies this`pos, this`size, this`account
      ensures Valid()
      ensures Allowed(old(account), AllocOp(o), capacity) && account == Perform(old(account), AllocOp(o), capacity)
    {
      RingTake(buf[..], pos, capacity, account.ring);
      o := buf[BitAnd(pos % WORD, mask)];
      TakeFirst(account, o, capacity);
      account := Perform(account, AllocOp(o), capacity);
      pos := (pos + 1) % WORD;
      size := size - 1;
    }

    method AllocNew() returns (o: Obj)
      requires Valid() && size == 0
      modifies this`account
      ensures Valid() && fresh(o)
      ensures Allowed(old(account), AllocOp(o), capacity) && account == Perform(old(account), AllocOp(o), capacity)
    {
      o := new Obj();
      PerformBalances(account, AllocOp(o), capacity);
      account := Perform(account, AllocOp(o), capacity);
    }

    // An object is released before it goes to the ring, and not before it is deleted. The caller's
    // pointer comes back null either way.
    method Free(t: Obj) returns (t': Option<Obj>)
      requires Valid() && t in account.held
      modifies this`size, this`account, buf, t
      ensures Valid() && t' == None
      ensures t.releases == old(t.releases) + if old(size) < capacity then 1 else 0
      ensures account == Perform(old(account), FreeOp(t), capacity)
      ensures account.held == old(account.held) - {t} && account.created == old(account.created)
      ensures old(size) < capacity ==>
        account.ring == old(account.ring) + [t] && account.deleted == old(account.deleted)
      ensures old(size) >= capacity ==>
        account.ring == old(account.ring) && account.deleted == old(account.deleted) + [t]
    {
      PerformBalances(account, FreeOp(t), capacity);
      if size < capacity {
        t.Release();
        ghost var before := buf[..];
        RingPut(before, pos, capacity, account.ring, t);
        var i := BitAnd((pos + size) % WORD, mask);
        buf[i] := t;
        assert buf[..] == before[i := t];
        size := size + 1;
      }
      account := Perform(account, FreeOp(t), capacity);
      return None;
    }

    // Fills an unused ring; `memory` is how many calls of new succeed. The code leaves size at the
    // index of the last object, so that object is created but never handed out.
    method PreAlloc(memory: nat)
      requires Valid()
      modifies this`size, this`account, buf
      ensures Valid()
      ensures old(pos) != 0 || old(size) != 0 || memory == 0 ==> account == old(account)
      ensures old(pos) == 0 && old(size) == 0 && memory > 0 ==>
        && |account.ring| == (if memory < capacity then memory else capacity) - 1
        && exists o ::
             && Allowed(old(account), PreAllocOp(account.ring, o), capacity)
             && account == Perform(old(account), PreAllocOp(account.ring, o), capacity)
    {
      if pos != 0 || size != 0 {
        return;
      }
      ghost var made: seq<Obj> := [];
      ghost var a := account;
      for i := 0 to capacity
        invariant made == [] ==> size == 0
        invariant made != [] ==> size == |made| - 1
        invariant |made| == i <= memory
        invariant forall k :: 0 <= k < i ==> buf[k] == made[k]
        invariant NoDuplicates(made) && forall o :: o in made ==> o !in a.created && fresh(o)
        invariant account == a
      {
        if i < memory {
          var o := new Obj();
          buf[i] := o;
          made := made + [o];
          size := i;
        } else {
          buf[i] := null;
          break;
        }
      }
      if made != [] {
        var n := |made| - 1;
        assert Allowed(a, PreAllocOp(made[..n], made[n]), capacity);
        PerformBalances(a, PreAllocOp(made[..n], made[n]), capacity);
        account := Perform(a, PreAllocOp(made[..n], made[n]), capacity);
      }
    }

    // The destructor's loop.
    method Destroy()
      requires Valid()
      modifies this`account
      ensures account == Destroyed(old(account)) && Balanced(account)
    {
      ghost var a := account;
      ghost var deleted: seq<Obj> := account.deleted;
      for i := 0 to size
        invariant account == a
        invariant deleted == a.deleted + a.ring[..i]
      {
        MaskedIndex(pos, i, capacity);
        var o := buf[BitAnd((pos + i) % WORD, mask)];
        deleted := deleted + [o];
      }
      DestroyedBalances(a);
      account := Account(a.created, a.held, [], deleted, a.lost);
    }
  }
}
