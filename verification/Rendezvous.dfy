/** The synchronous timer, SyncTimer: waiters and deliverers that meet under a key. */
module Rendezvous {
  import opened Common

  type Key = int
  type Value = int

  datatype Sem = Unset | Live(count: nat) | Final

  // out_t: a waiter's semaphore, and what its pointer to the caller's value refers to.
  class Out {
    var sem: Sem
    var out: Option<Value>

    constructor ()
      ensures sem == Unset && out == None
    {
      sem, out := Unset, None;
    }
  }

  // Waiters are told apart by their out_t objects.
  type Slot = Out

  // Where a waiter's thread stands between Push and the end of Wait.
  datatype Phase =
    | Idle                // the slot is not in use
    | Waiting             // Push succeeded, zsem_wait has not returned
    | Returned(ok: bool)  // zsem_wait returned, the entry is still in the map
    | Erased(ok: bool)    // the entry is gone, the semaphore not finalised yet

  // `out` is what was stored since the Push, and `delivered` records the values of the Pops that
  // found this slot since then.
  datatype Waiter = Waiter(key: Key, sem: Sem, out: Option<Value>, phase: Phase, delivered: seq<Value>)

  // What one whole Wait came to.
  datatype Outcome = Outcome(ok: bool, out: Option<Value>, delivered: seq<Value>, left: nat)

  // `touchedDead` records a use of a semaphore that is not live.
  datatype State = State(entries: map<Key, Slot>, waiters: map<Slot, Waiter>, outcomes: seq<Outcome>, touchedDead: bool)

  // Each step is what one thread does while it holds the lock, or one semaphore operation.
  datatype Label =
    | Push(key: Key, slot: Slot)
    | SemWait(slot: Slot, ok: bool)
    | Erase(slot: Slot)
    | Finish(slot: Slot)
    | Pop(key: Key, value: Value)

  const INIT := State(map[], map[], [], false)

  function PhaseOf(s: State, slot: Slot): Phase {
    if slot in s.waiters then s.waiters[slot].phase else Idle
  }

  // A slot that gets registered is not in use, and clients wait with the slot and key they pushed.
  // A wait succeeds when there is a token and may fail at any time.
  predicate Enabled(s: State, l: Label) {
    match l
    case Push(key, slot) => key in s.entries || PhaseOf(s, slot).Idle?
    case SemWait(slot, ok) =>
      PhaseOf(s, slot).Waiting? && (ok ==> s.waiters[slot].sem.Live? && s.waiters[slot].sem.count > 0)
    case Erase(slot) => PhaseOf(s, slot).Returned?
    case Finish(slot) => PhaseOf(s, slot).Erased?
    case Pop(_, _) => true
  }

  function Tokens(sem: Sem): nat {
    if sem.Live? then sem.count else 0
  }

  function Next(s: State, l: Label): State
    requires Enabled(s, l)
  {
    match l
    case Push(key, slot) =>
      if key in s.entries then s // ZEEXIST
      else s.(entries := s.entries[key := slot], waiters := s.waiters[slot := Waiter(key, Live(0), None, Waiting, [])])
    case SemWait(slot, ok) =>
      var w := s.waiters[slot];
      s.(waiters := s.waiters[slot := w.(sem := if ok then Live(w.sem.count - 1) else w.sem, phase := Returned(ok))],
         touchedDead := s.touchedDead || !w.sem.Live?)
    case Erase(slot) =>
      var w := s.waiters[slot];
      s.(entries := s.entries - {w.key}, waiters := s.waiters[slot := w.(phase := Erased(w.phase.ok))])
    case Finish(slot) =>
      var w := s.waiters[slot];
      s.(waiters := s.waiters[slot := w.(sem := Final, phase := Idle)],
         outcomes := s.outcomes + [Outcome(w.phase.ok, w.out, w.delivered, Tokens(w.sem))],
         touchedDead := s.touchedDead || !w.sem.Live?)
    case Pop(key, value) =>
      if key !in s.entries then s // ZENOT_EXIST
      else
        var slot := s.entries[key];
        if slot !in s.waiters || !s.waiters[slot].sem.Live? then s.(touchedDead := true)
        else
          var w := s.waiters[slot];
          s.(waiters := s.waiters[slot :=
            w.(sem := Live(w.sem.count + 1), out := Some(value), delivered := w.delivered + [value])])
  }

  ghost predicate CanRun(s: State, run: seq<Label>)
    decreases |run|
  {
    run == [] || (Enabled(s, run[0]) && CanRun(Next(s, run[0]), run[1..]))
  }

  function After(s: State, run: seq<Label>): State
    requires CanRun(s, run)
    decreases |run|
  {
    if run == [] then s else After(Next(s, run[0]), run[1..])
  }

  // ----- The invariant -----

  predicate Registered(p: Phase) {
    p.Waiting? || p.Returned?
  }

  function Took(p: Phase): nat {
    if (p.Returned? || p.Erased?) && p.ok then 1 else 0
  }

  function LastOf(delivered: seq<Value>): Option<Value> {
    if delivered == [] then None else Some(delivered[|delivered| - 1])
  }

  // A waiter in use: its semaphore is live, each value delivered to it left one token, and what
  // its out pointer holds is the value delivered last.
  ghost predicate WaiterInv(w: Waiter) {
    !w.phase.Idle? ==>
      w.sem.Live? && w.sem.count + Took(w.phase) == |w.delivered| && w.out == LastOf(w.delivered)
  }

  ghost predicate OutcomeInv(o: Outcome) {
    && o.out == LastOf(o.delivered)
    && |o.delivered| == o.left + (if o.ok then 1 else 0)
  }

  ghost predicate Inv(s: State) {
    // an entry belongs to the waiter of its key, and that one is registered
    && (forall k :: k in s.entries ==>
          s.entries[k] in s.waiters && s.waiters[s.entries[k]].key == k && Registered(s.waiters[s.entries[k]].phase))
    // and each registered waiter has its entry
    && (forall slot :: slot in s.waiters && Registered(s.waiters[slot].phase) ==>
          s.waiters[slot].key in s.entries && s.entries[s.waiters[slot].key] == slot)
    && (forall slot :: slot in s.waiters ==> WaiterInv(s.waiters[slot]))
    && (forall i :: 0 <= i < |s.outcomes| ==> OutcomeInv(s.outcomes[i]))
    && !s.touchedDead
  }

  lemma {:induction false} PushKeepsInv(s: State, key: Key, slot: Slot)
    requires Inv(s) && Enabled(s, Push(key, slot))
    ensures Inv(Next(s, Push(key, slot)))
  {
  }

  lemma {:induction false} PopKeepsInv(s: State, key: Key, value: Value)
    requires Inv(s)
    ensures Inv(Next(s, Pop(key, value)))
  {
  }

  lemma {:induction false} EraseKeepsInv(s: State, slot: Slot)
    requires Inv(s) && Enabled(s, Erase(slot))
    ensures Inv(Next(s, Erase(slot)))
  {
  }

  lemma {:induction false} SemWaitKeepsInv(s: State, slot: Slot, ok: bool)
    requires Inv(s) && Enabled(s, SemWait(slot, ok))
    ensures Inv(Next(s, SemWait(slot, ok)))
  {
    assert WaiterInv(s.waiters[slot]);
  }

  lemma {:induction false} FinishKeepsInv(s: State, slot: Slot)
    requires Inv(s) && Enabled(s, Finish(slot))
    ensures Inv(Next(s, Finish(slot)))
  {
    assert WaiterInv(s.waiters[slot]);
  }

  lemma {:induction false} StepKeepsInv(s: State, l: Label)
    requires Inv(s) && Enabled(s, l)
    ensures Inv(Next(s, l))
  {
    match l
    case Push(key, slot) => PushKeepsInv(s, key, slot);
    case Pop(key, value) => PopKeepsInv(s, key, value);
    case Erase(slot) => EraseKeepsInv(s, slot);
    case SemWait(slot, ok) => SemWaitKeepsInv(s, slot, ok);
    case Finish(slot) => FinishKeepsInv(s, slot);
  }

  lemma {:induction false} RunKeepsInv(s: State, run: seq<Label>)
    requires Inv(s) && CanRun(s, run)
    ensures Inv(After(s, run))
    decreases |run|
  {
    if run != [] {
      StepKeepsInv(s, run[0]);
      RunKeepsInv(Next(s, run[0]), run[1..]);
    }
  }

  // The semaphore that a step uses, if any, is live.
  predicate UsesLive(s: State, l: Label) {
    match l
    case SemWait(slot, _) => slot in s.waiters && s.waiters[slot].sem.Live?
    case Finish(slot) => slot in s.waiters && s.waiters[slot].sem.Live?
    case Pop(key, _) => key in s.entries ==> s.entries[key] in s.waiters && s.waiters[s.entries[key]].sem.Live?
    case _ => true
  }

  // The record of dead semaphores used: every step that uses one is in it, and no other.
  lemma {:induction false} TouchedExactly(s: State, l: Label)
    requires Enabled(s, l)
    ensures Next(s, l).touchedDead <==> s.touchedDead || !UsesLive(s, l)
  {
  }

  /** Rendezvous safety, over every interleaving: each entry of the map refers to the live
      semaphore of the waiter of that key; no delivery and no wait touches a semaphore that is
      not live, neither so far nor by any step that can come next; and a Wait that succeeds has the
      value stored last by a Pop that reported success for it. */
  lemma {:induction false} RendezvousSafe(run: seq<Label>)
    requires CanRun(INIT, run)
    ensures
      var s := After(INIT, run);
      && !s.touchedDead && (forall l :: Enabled(s, l) ==> UsesLive(s, l))
      && (forall k :: k in s.entries ==>
            s.entries[k] in s.waiters && s.waiters[s.entries[k]].sem.Live? && s.waiters[s.entries[k]].key == k)
      && (forall i :: 0 <= i < |s.outcomes| && s.outcomes[i].ok ==>
            s.outcomes[i].delivered != []
            && s.outcomes[i].out == Some(s.outcomes[i].delivered[|s.outcomes[i].delivered| - 1]))
  {
    RunKeepsInv(INIT, run);
    var s := After(INIT, run);
    assert forall i :: 0 <= i < |s.outcomes| ==> OutcomeInv(s.outcomes[i]);
    forall l | Enabled(s, l) ensures UsesLive(s, l) {
      NextUsesLive(s, l);
    }
  }

  lemma {:induction false} NextUsesLive(s: State, l: Label)
    requires Inv(s) && Enabled(s, l)
    ensures UsesLive(s, l)
  {
    assert forall slot :: slot in s.waiters ==> WaiterInv(s.waiters[slot]);
  }

  /** Conservation, over every interleaving: of the Pops that reported success for one Wait, as
      many as it took tokens were received, and the rest are the tokens left when its semaphore
      was finalised. So every reported success was received if and only if no token was left. */
  lemma {:induction false} DeliveriesAccounted(run: seq<Label>, i: nat)
    requires CanRun(INIT, run) && i < |After(INIT, run).outcomes|
    ensures
      var o := After(INIT, run).outcomes[i];
      && |o.delivered| == o.left + (if o.ok then 1 else 0)
      && (o.left == 0 <==> if o.ok then o.out.Some? && o.delivered == [o.out.value] else o.delivered == [])
  {
    RunKeepsInv(INIT, run);
    var o := After(INIT, run).outcomes[i];
    assert OutcomeInv(o);
  }

  // ----- When a reported success is not received -----

  // A Pop that finds a waiter already served or no longer waiting, and a wait that fails although
  // there is a token.
  predicate Misses(s: State, l: Label, slot: Slot) {
    slot in s.waiters &&
    var w := s.waiters[slot];
    || (l.Pop? && l.key in s.entries && s.entries[l.key] == slot && (!w.phase.Waiting? || w.delivered != []))
    || (l.SemWait? && l.slot == slot && !l.ok && Tokens(w.sem) > 0)
  }

  // No token can be left of what this waiter was sent so far.
  predicate Clean(w: Waiter) {
    Tokens(w.sem) <= if w.phase.Waiting? then 1 else 0
  }

  lemma {:induction false} StepClean(s: State, l: Label, slot: Slot)
    requires Inv(s) && Enabled(s, l) && !PhaseOf(s, slot).Idle? && l != Finish(slot)
    ensures !PhaseOf(Next(s, l), slot).Idle?
    ensures Clean(Next(s, l).waiters[slot]) <==> Clean(s.waiters[slot]) && !Misses(s, l, slot)
  {
    assert WaiterInv(s.waiters[slot]);
    if l.Pop? && l.key in s.entries {
      assert WaiterInv(s.waiters[s.entries[l.key]]);
    }
  }

  ghost predicate NoMiss(s: State, run: seq<Label>, slot: Slot)
    requires CanRun(s, run)
    decreases |run|
  {
    run == [] || (!Misses(s, run[0], slot) && NoMiss(Next(s, run[0]), run[1..], slot))
  }

  lemma {:induction false} RunClean(s: State, run: seq<Label>, slot: Slot)
    requires Inv(s) && CanRun(s, run) && !PhaseOf(s, slot).Idle? && Finish(slot) !in run
    ensures Inv(After(s, run)) && !PhaseOf(After(s, run), slot).Idle?
    ensures Clean(After(s, run).waiters[slot]) <==> Clean(s.waiters[slot]) && NoMiss(s, run, slot)
    decreases |run|
  {
    if run != [] {
      StepKeepsInv(s, run[0]);
      StepClean(s, run[0], slot);
      RunClean(Next(s, run[0]), run[1..], slot);
    }
  }

  /** Whatever the other threads do between a waiter's Push and the end of its Wait: every Pop that
      reported success to it is received if and only if none found it served or no longer waiting
      and its wait did not fail with a token there. */
  lemma {:induction false} ReceivedExactly(s: State, key: Key, slot: Slot, run: seq<Label>)
    requires Inv(s) && PhaseOf(s, slot).Idle? && key !in s.entries
    requires CanRun(Next(s, Push(key, slot)), run) && Finish(slot) !in run
    requires Enabled(After(Next(s, Push(key, slot)), run), Finish(slot))
    ensures
      var s1 := After(Next(s, Push(key, slot)), run);
      var outcomes := Next(s1, Finish(slot)).outcomes;
      outcomes[|outcomes| - 1].left == 0 <==> NoMiss(Next(s, Push(key, slot)), run, slot)
  {
    StepKeepsInv(s, Push(key, slot));
    RunClean(Next(s, Push(key, slot)), run, slot);
  }

  // A delivery between the time-out of a wait and its erasing of the entry.
  function LateRun(key: Key, slot: Slot, value: Value): seq<Label> {
    [Push(key, slot), SemWait(slot, false), Pop(key, value), Erase(slot), Finish(slot)]
  }

  /** The rest is not always nothing: a Pop can report success to a Wait that reports a time-out. */
  lemma {:induction false} LateDeliveryIsLost(key: Key, slot: Slot, value: Value)
    ensures CanRun(INIT, LateRun(key, slot, value))
    ensures After(INIT, LateRun(key, slot, value)).outcomes == [Outcome(false, Some(value), [value], 1)]
  {
    var run := LateRun(key, slot, value);
    var s1 := Next(INIT, run[0]);
    var s2 := Next(s1, run[1]);
    var s3 := Next(s2, run[2]);
    var s4 := Next(s3, run[3]);
    var s5 := Next(s4, run[4]);
    var w := Waiter(key, Live(1), Some(value), Erased(false), [value]);
    assert s4.waiters[slot] == w && s4.outcomes == [];
    assert s5.outcomes == [Outcome(false, w.out, w.delivered, 1)];
    assert run[1..][0] == run[1] && run[1..][1..][0] == run[2] && run[1..][1..][1..][0] == run[3];
    assert run[1..][1..][1..][1..] == [run[4]] && run[1..][1..][1..][1..][1..] == [];
    assert After(s5, []) == s5;
    assert CanRun(s4, [run[4]]) && After(s4, [run[4]]) == s5;
    assert CanRun(s3, run[1..][1..][1..]) && After(s3, run[1..][1..][1..]) == s5;
    assert CanRun(s2, run[1..][1..]) && After(s2, run[1..][1..]) == s5;
    assert CanRun(s1, run[1..]) && After(s1, run[1..]) == s5;
  }

  // ----- The operations as code -----

  ghost predicate Leads(s: State, run: seq<Label>, s': State) {
    CanRun(s, run) && After(s, run) == s'
  }

  // The steps of a Wait that no other thread interrupts.
  function WaitSteps(slot: Slot, ok: bool): seq<Label> {
    [SemWait(slot, ok), Erase(slot), Finish(slot)]
  }

  lemma {:induction false} LeadsFirst(s: State, l: Label, rest: seq<Label>, s': State)
    requires Enabled(s, l) && Leads(Next(s, l), rest, s')
    ensures Leads(s, [l] + rest, s')
  {
    assert ([l] + rest)[1..] == rest;
  }

  // The steps one by one, and what a success finds.
  lemma {:induction false} ThreeSteps(s: State, slot: Slot, ok: bool)
    requires Inv(s) && Enabled(s, SemWait(slot, ok))
    ensures
      var w, s1 := s.waiters[slot], Next(s, SemWait(slot, ok));
      && PhaseOf(s1, slot) == Returned(ok) && s1.waiters[slot].key == w.key
      && var s2 := Next(s1, Erase(slot));
      && PhaseOf(s2, slot) == Erased(ok) && Leads(s, WaitSteps(slot, ok), Next(s2, Finish(slot)))
      && (ok ==> w.out == LastOf(w.delivered) != None)
  {
    var s1 := Next(s, SemWait(slot, ok));
    var s2 := Next(s1, Erase(slot));
    var s3 := Next(s2, Finish(slot));
    LeadsFirst(s2, Finish(slot), [], s3);
    LeadsFirst(s1, Erase(slot), [Finish(slot)], s3);
    LeadsFirst(s, SemWait(slot, ok), [Erase(slot), Finish(slot)], s3);
    assert WaiterInv(s.waiters[slot]);
  }

  // The fields of the objects, and `st`, the state that the steps taken so far have led to.
  class SyncTimer {
    var semMap: map<Key, Out>
    ghost var st: State

    ghost predicate Valid()
      reads this, st.waiters.Keys
    {
      && Inv(st) && st.entries == semMap
      && forall o :: o in st.waiters ==>
           o.sem == st.waiters[o].sem && (st.waiters[o].out.Some? ==> o.out == st.waiters[o].out)
    }

    constructor ()
      ensures semMap == map[] && st == INIT && Valid()
    {
      semMap, st := map[], INIT;
    }

    method Push(key: Key, out: Out) returns (ret: Code)
      modifies this, out`sem
      ensures ret == if key in old(semMap) then ZEXIST else ZOK
      ensures ret == ZOK ==> semMap == old(semMap)[key := out] && out.sem == Live(0)
      ensures ret != ZOK ==> semMap == old(semMap) && out.sem == old(out.sem)
      ensures old(Valid()) && Enabled(old(st), Label.Push(key, out)) ==>
        Valid() && st == Next(old(st), Label.Push(key, out))
    {
      if Valid() && Enabled(st, Label.Push(key, out)) {
        PushKeepsInv(st, key, out);
        st := Next(st, Label.Push(key, out));
      }
      ret := ZOK;
      if key !in semMap {
        out.sem := Live(0);
        semMap := semMap[key := out];
      } else {
        ret := ZEXIST;
      }
    }

    // The three points at which a Wait touches what it shares. Each is the machine's step, whatever
    // other threads did before it; zsem_wait takes a token if there is one.
    method AwaitToken(out: Out) returns (ok: bool)
      requires out.sem.Live?
      modifies this`st, out`sem
      ensures ok <==> old(out.sem).count > 0
      ensures out.sem == Live(if ok then old(out.sem).count - 1 else 0)
      ensures old(Valid()) && PhaseOf(old(st), out).Waiting? ==> Valid() && st == Next(old(st), SemWait(out, ok))
    {
      ok := out.sem.count > 0;
      if Valid() && PhaseOf(st, out).Waiting? {
        SemWaitKeepsInv(st, out, ok);
        st := Next(st, SemWait(out, ok));
      }
      if ok {
        out.sem := Live(out.sem.count - 1);
      }
    }

    method EraseKey(key: Key, out: Out)
      modifies this
      ensures semMap == old(semMap) - {key}
      ensures old(Valid()) && PhaseOf(old(st), out).Returned? && old(st).waiters[out].key == key ==>
        Valid() && st == Next(old(st), Erase(out))
    {
      if Valid() && PhaseOf(st, out).Returned? && st.waiters[out].key == key {
        EraseKeepsInv(st, out);
        st := Next(st, Erase(out));
      }
      semMap := semMap - {key};
    }

    method Finalise(out: Out)
      requires out.sem.Live?
      modifies this`st, out`sem
      ensures out.sem == Final
      ensures old(Valid()) && PhaseOf(old(st), out).Erased? ==> Valid() && st == Next(old(st), Finish(out))
    {
      if Valid() && PhaseOf(st, out).Erased? {
        FinishKeepsInv(st, out);
        st := Next(st, Finish(out));
      }
      out.sem := Final;
    }

    // Without another thread in between. A success finds the value of the last delivery.
    method Wait(key: Key, out: Out) returns (ret: Code)
      requires out.sem.Live?
      modifies this, out`sem
      ensures ret == if old(out.sem).count > 0 then ZOK else ZTIMEOUT
      ensures semMap == old(semMap) - {key} && out.sem == Final
      ensures old(Valid()) && PhaseOf(old(st), out).Waiting? && old(st).waiters[out].key == key ==>
        && Valid() && Leads(old(st), WaitSteps(out, ret == ZOK), st)
        && (ret == ZOK ==> out.out == LastOf(old(st).waiters[out].delivered) != None)
    {
      if Valid() && PhaseOf(st, out).Waiting? {
        ThreeSteps(st, out, out.sem.count > 0);
      }
      var ok := AwaitToken(out);
      EraseKey(key, out);
      Finalise(out);
      ret := if ok then ZOK else ZTIMEOUT;
    }

    method Pop(key: Key, value: Value) returns (ret: Code)
      requires key in semMap ==> semMap[key].sem.Live?
      modifies this`st, if key in semMap then {semMap[key]} else {}
      ensures ret == if key in semMap then ZOK else ZNOT_EXIST
      ensures ret == ZOK ==> semMap[key].out == Some(value) && semMap[key].sem == Live(old(semMap[key].sem).count + 1)
      ensures old(Valid()) ==> Valid() && st == Next(old(st), Label.Pop(key, value))
    {
      if Valid() {
        PopKeepsInv(st, key, value);
      }
      st := Next(st, Label.Pop(key, value));
      ret := ZNOT_EXIST;
      if key in semMap {
        var it := semMap[key];
        it.out := Some(value);
        it.sem := Live(it.sem.count + 1);
        ret := ZOK;
      }
    }
  }
}
