/** The asynchronous timer, AsyncTimer: a set of deadlines scanned in order. */
module Deadlines {
  import opened Common

  // An element of the ordered set of (timestamp, key) pairs.
  datatype Entry = Entry(deadline: int, key: int)

  predicate Before(a: Entry, b: Entry) {
    a.deadline < b.deadline || (a.deadline == b.deadline && a.key < b.key)
  }

  ghost predicate Sorted(s: seq<Entry>) {
    forall i, j :: 0 <= i < j < |s| ==> Before(s[i], s[j])
  }

  // std::set's insert: in order, and nothing happens when the pair is already there.
  function Insert(s: seq<Entry>, e: Entry): seq<Entry> {
    if s == [] then [e]
    else if e == s[0] then s
    else if Before(e, s[0]) then [e] + s
    else [s[0]] + Insert(s[1..], e)
  }

  // The index of the first entry with a key, or the length.
  function FindKey(s: seq<Entry>, key: int): (i: nat)
    ensures i <= |s|
    ensures i < |s| ==> s[i].key == key
    ensures forall j :: 0 <= j < i ==> s[j].key != key
  {
    First(s, (e: Entry) => e.key == key)
  }

  function Without(s: seq<Entry>, i: nat): seq<Entry>
    requires i <= |s|
  {
    if i == |s| then s else s[..i] + s[i + 1..]
  }

  // The full filters that the early-stopping scan is compared with.
  function Due(s: seq<Entry>, now: int): seq<Entry> {
    if s == [] then [] else (if s[0].deadline <= now then [s[0]] else []) + Due(s[1..], now)
  }

  function NotDue(s: seq<Entry>, now: int): seq<Entry> {
    if s == [] then [] else (if s[0].deadline <= now then [] else [s[0]]) + NotDue(s[1..], now)
  }

  function Keys(s: seq<Entry>): (r: seq<int>)
    ensures |r| == |s|
    ensures forall i :: 0 <= i < |s| ==> r[i] == s[i].key
  {
    if s == [] then [] else [s[0].key] + Keys(s[1..])
  }

  // Once one entry of a sorted list is not due, none behind it is.
  lemma {:induction false} NoneDue(s: seq<Entry>, now: int)
    requires Sorted(s) && s != [] && s[0].deadline > now
    ensures Due(s, now) == [] && NotDue(s, now) == s
    decreases |s|
  {
    if |s| > 1 {
      assert Before(s[0], s[1]);
      NoneDue(s[1..], now);
    }
    assert s == [s[0]] + s[1..];
  }

  // Sorted lists by their first entry and the rest.
  lemma {:induction false} SortedSplit(s: seq<Entry>)
    requires s != []
    ensures s == [s[0]] + s[1..]
    ensures Sorted(s) <==> Sorted(s[1..]) && forall e :: e in s[1..] ==> Before(s[0], e)
  {
    assert forall k :: 0 < k < |s| ==> s[k] == s[1..][k - 1];
    assert forall k :: 0 <= k < |s[1..]| ==> s[1..][k] in s[1..];
  }

  lemma {:induction false} InsertElements(s: seq<Entry>, e: Entry)
    ensures forall x :: x in Insert(s, e) <==> x in s || x == e
    decreases |s|
  {
    if s != [] && e != s[0] && !Before(e, s[0]) {
      InsertElements(s[1..], e);
      assert s == [s[0]] + s[1..];
    }
  }

  lemma {:induction false} InsertSorted(s: seq<Entry>, e: Entry)
    requires Sorted(s)
    ensures Sorted(Insert(s, e))
    decreases |s|
  {
    if s != [] && e != s[0] {
      SortedSplit(s);
      var r := Insert(s, e);
      if Before(e, s[0]) {
        assert r[1..] == s;
      } else {
        InsertSorted(s[1..], e);
        InsertElements(s[1..], e);
        assert r[1..] == Insert(s[1..], e);
      }
      SortedSplit(r);
    }
  }

  // ----- The filters and the removal on a sorted list -----

  lemma {:induction false} DueElements(s: seq<Entry>, now: int)
    ensures forall e :: e in Due(s, now) <==> e in s && e.deadline <= now
    ensures forall e :: e in NotDue(s, now) <==> e in s && e.deadline > now
    decreases |s|
  {
    if s != [] {
      DueElements(s[1..], now);
      assert s == [s[0]] + s[1..];
    }
  }

  // A sorted list is what is due followed by what is not.
  lemma {:induction false} DueThenNotDue(s: seq<Entry>, now: int)
    requires Sorted(s)
    ensures s == Due(s, now) + NotDue(s, now)
    decreases |s|
  {
    if s != [] {
      SortedSplit(s);
      if s[0].deadline <= now {
        DueThenNotDue(s[1..], now);
      } else {
        NoneDue(s, now);
      }
    }
  }

  /** Timer on a sorted set: the scan that stops at the first entry not due fires exactly the
      entries with deadline at most now, each once and in order of deadline, and keeps the rest. */
  lemma {:induction false} ScanFiresDue(s: seq<Entry>, now: int)
    requires Sorted(s)
    ensures s == Due(s, now) + NotDue(s, now)
    ensures Sorted(Due(s, now)) && Sorted(NotDue(s, now))
    ensures forall e :: e in Due(s, now) <==> e in s && e.deadline <= now
    ensures forall e :: e in NotDue(s, now) <==> e in s && e.deadline > now
  {
    DueThenNotDue(s, now);
    DueElements(s, now);
    var n := |Due(s, now)|;
    assert Due(s, now) == s[..n] && NotDue(s, now) == s[n..];
  }

  // Where a scan stops, by position.
  lemma {:induction false} ScanStops(s: seq<Entry>, n: nat, now: int)
    requires Sorted(s) && n <= |s| && (n < |s| ==> s[n].deadline > now)
    requires forall i :: 0 <= i < n ==> s[i].deadline <= now
    ensures Due(s, now) == s[..n] && NotDue(s, now) == s[n..] && Sorted(s[n..])
    ensures forall e :: e in s[n..] ==> now < e.deadline
    decreases n
  {
    ScanFiresDue(s, now);
    if n == 0 {
      if s != [] {
        NoneDue(s, now);
      }
    } else {
      assert s[1..][n - 1..] == s[n..] && s == [s[0]] + s[1..];
      ScanStops(s[1..], n - 1, now);
    }
  }

  /** Pop removes exactly the earliest entry of its key, and nothing when the key has none. */
  lemma {:induction false} PopRemovesEarliest(s: seq<Entry>, key: int)
    requires Sorted(s)
    ensures
      var i := FindKey(s, key);
      && (i == |s| <==> forall e :: e in s ==> e.key != key)
      && Sorted(Without(s, i))
      && (forall e :: e in Without(s, i) <==> e in s && (i < |s| ==> e != s[i]))
      && (i < |s| ==> forall e :: e in s && e.key == key && e != s[i] ==> s[i].deadline < e.deadline)
  {
    var i := FindKey(s, key);
    assert i == |s| ==> forall e :: e in s ==> e.key != key;
    if i < |s| {
      var w := Without(s, i);
      assert s[i] in s;
      forall e ensures e in w <==> e in s && e != s[i] {
        RemoveAt(s, i, e);
      }
      forall e | e in s && e.key == key && e != s[i] ensures s[i].deadline < e.deadline {
        var k :| 0 <= k < |s| && s[k] == e;
        assert Before(s[i], s[k]);
      }
    }
  }

  lemma {:induction false} RemoveAt(s: seq<Entry>, i: nat, e: Entry)
    requires Sorted(s) && i < |s|
    ensures e in Without(s, i) <==> e in s && e != s[i]
  {
    var w := Without(s, i);
    if e in s && e != s[i] {
      var k :| 0 <= k < |s| && s[k] == e;
      assert w[if k < i then k else k - 1] == e;
    }
    if e in w {
      var k :| 0 <= k < |w| && w[k] == e;
      assert s[if k < i then k else k + 1] == e;
      assert Before(s[i], e) || Before(e, s[i]);
    }
  }

  // ----- Whole runs -----

  datatype Op = PushOp(now: int, key: int, timeoutMs: int) | PopOp(key: int) | TimerOp(now: int)

  // The set, the pairs ever stored, and those that left, either way; a fired pair with its time.
  datatype History = History(
    entries: seq<Entry>, stored: multiset<Entry>, popped: multiset<Entry>, fired: seq<(Entry, int)>)

  function Perform(h: History, op: Op): History {
    match op
    case PushOp(now, key, timeoutMs) =>
      var e := Entry(now + timeoutMs, key);
      h.(entries := Insert(h.entries, e), stored := if e in h.entries then h.stored else h.stored + multiset{e})
    case PopOp(key) =>
      var i := FindKey(h.entries, key);
      h.(entries := Without(h.entries, i),
         popped := if i < |h.entries| then h.popped + multiset{h.entries[i]} else h.popped)
    case TimerOp(now) =>
      h.(entries := NotDue(h.entries, now), fired := h.fired + Stamped(Due(h.entries, now), now))
  }

  function Stamped(s: seq<Entry>, now: int): (r: seq<(Entry, int)>)
    ensures |r| == |s|
    ensures forall i :: 0 <= i < |s| ==> r[i] == (s[i], now)
  {
    if s == [] then [] else [(s[0], now)] + Stamped(s[1..], now)
  }

  function PerformAll(h: History, ops: seq<Op>): History
    decreases |ops|
  {
    if ops == [] then h else PerformAll(Perform(h, ops[0]), ops[1..])
  }

  // How often a pair was fired.
  function TimesFired(fired: seq<(Entry, int)>, e: Entry): nat {
    if fired == [] then 0 else (if fired[0].0 == e then 1 else 0) + TimesFired(fired[1..], e)
  }

  ghost predicate Balanced(h: History, e: Entry) {
    h.stored[e] == h.popped[e] + TimesFired(h.fired, e) + if e in h.entries then 1 else 0
  }

  ghost predicate Accounted(h: History) {
    && Sorted(h.entries)
    && (forall e :: Balanced(h, e))
    && forall i :: 0 <= i < |h.fired| ==> h.fired[i].0.deadline <= h.fired[i].1
  }

  lemma {:induction false} FiredAppend(a: seq<(Entry, int)>, b: seq<(Entry, int)>, e: Entry)
    ensures TimesFired(a + b, e) == TimesFired(a, e) + TimesFired(b, e)
    decreases |a|
  {
    if a == [] {
      assert a + b == b;
    } else {
      assert (a + b)[1..] == a[1..] + b;
      FiredAppend(a[1..], b, e);
    }
  }

  // A batch fires each of its entries once.
  lemma {:induction false} FiredStamped(s: seq<Entry>, now: int, e: Entry)
    requires Sorted(s)
    ensures TimesFired(Stamped(s, now), e) == if e in s then 1 else 0
    decreases |s|
  {
    if s != [] {
      SortedSplit(s);
      FiredStamped(s[1..], now, e);
      assert Stamped(s, now)[1..] == Stamped(s[1..], now);
    }
  }

  lemma {:induction false} TimerAccounted(h: History, now: int)
    requires Accounted(h)
    ensures Accounted(Perform(h, TimerOp(now)))
  {
    var due, h' := Due(h.entries, now), Perform(h, TimerOp(now));
    ScanFiresDue(h.entries, now);
    forall e ensures Balanced(h', e) {
      assert Balanced(h, e);
      FiredAppend(h.fired, Stamped(due, now), e);
      FiredStamped(due, now, e);
    }
    forall i | 0 <= i < |h'.fired| ensures h'.fired[i].0.deadline <= h'.fired[i].1 {
      if i >= |h.fired| {
        assert h'.fired[i] == (due[i - |h.fired|], now) && due[i - |h.fired|] in due;
      }
    }
  }

  lemma {:induction false} StepAccounted(h: History, op: Op)
    requires Accounted(h)
    ensures Accounted(Perform(h, op))
  {
    match op
    case PushOp(now, key, timeoutMs) =>
      InsertSorted(h.entries, Entry(now + timeoutMs, key));
      InsertElements(h.entries, Entry(now + timeoutMs, key));
      assert forall e :: Balanced(h, e) ==> Balanced(Perform(h, op), e);
    case PopOp(key) =>
      PopRemovesEarliest(h.entries, key);
      assert forall e :: Balanced(h, e) ==> Balanced(Perform(h, op), e);
    case TimerOp(now) =>
      TimerAccounted(h, now);
  }

  /** Over every run: each storing of a (deadline, key) pair is matched by one leaving, popped or
      fired, or by its being still there, so no pair leaves more often than it was stored; and
      no pair is fired before its deadline. */
  lemma {:induction false} RunsAccounted(ops: seq<Op>, h: History)
    requires Accounted(h)
    ensures Accounted(PerformAll(h, ops))
    ensures
      var r := PerformAll(h, ops);
      forall e :: r.popped[e] + TimesFired(r.fired, e) <= r.stored[e]
    decreases |ops|
  {
    if ops != [] {
      StepAccounted(h, ops[0]);
      RunsAccounted(ops[1..], Perform(h, ops[0]));
    }
    var r := PerformAll(h, ops);
    forall e ensures r.popped[e] + TimesFired(r.fired, e) <= r.stored[e] {
      assert Balanced(r, e);
    }
  }

  // The keys of the entries that a scan adds to those fired are what the callback is called with.
  lemma {:induction false} FiredAreCalled(h: History, now: int)
    ensures
      var called, h' := Keys(Due(h.entries, now)), Perform(h, TimerOp(now));
      && |h'.fired| == |h.fired| + |called|
      && forall i :: 0 <= i < |called| ==> h'.fired[|h.fired| + i].0.key == called[i]
    ensures Accounted(h) ==> Accounted(Perform(h, TimerOp(now)))
  {
    if Accounted(h) {
      TimerAccounted(h, now);
    }
  }

  // ----- The operations as code -----

  // The set, and `history`, what the operations so far amount to.
  class AsyncTimer {
    var tsSet: seq<Entry>
    ghost var history: History

    ghost predicate Valid()
      reads this
    {
      history.entries == tsSet && Accounted(history)
    }

    constructor ()
      ensures tsSet == [] && Valid() && history == History([], multiset{}, multiset{}, [])
    {
      tsSet, history := [], History([], multiset{}, multiset{}, []);
    }

    // The clock is read under the lock.
    method Push(now: int, key: int, timeoutMs: int) returns (ret: Code)
      requires Sorted(tsSet)
      modifies this
      ensures ret == ZOK && tsSet == Insert(old(tsSet), Entry(now + timeoutMs, key)) && Sorted(tsSet)
      ensures old(Valid()) ==> Valid() && history == Perform(old(history), PushOp(now, key, timeoutMs))
    {
      if Accounted(history) {
        StepAccounted(history, PushOp(now, key, timeoutMs));
      }
      history := Perform(history, PushOp(now, key, timeoutMs));
      InsertSorted(tsSet, Entry(now + timeoutMs, key));
      tsSet := Insert(tsSet, Entry(now + timeoutMs, key));
      return ZOK;
    }

    method Pop(key: int) returns (ret: Code)
      requires Sorted(tsSet)
      modifies this
      ensures tsSet == Without(old(tsSet), FindKey(old(tsSet), key)) && Sorted(tsSet)
      ensures ret == if FindKey(old(tsSet), key) < |old(tsSet)| then ZOK else ZNOT_EXIST
      ensures old(Valid()) ==> Valid() && history == Perform(old(history), PopOp(key))
    {
      ret := ZNOT_EXIST;
      var it := 0;
      PopRemovesEarliest(tsSet, key);
      while it != |tsSet|
        invariant 0 <= it <= |tsSet| && tsSet == old(tsSet) && history == old(history) && ret == ZNOT_EXIST
        invariant forall j :: 0 <= j < it ==> tsSet[j].key != key
        decreases |tsSet| - it
      {
        if tsSet[it].key == key {
          ret := ZOK;
          tsSet := tsSet[..it] + tsSet[it + 1..];
          break;
        } else {
          it := it + 1;
        }
      }
      if Accounted(history) {
        StepAccounted(history, PopOp(key));
      }
      history := Perform(history, PopOp(key));
    }

    // `called` lists the keys the callback got, in order: those of the first entries of the set, as
    // far as they are due, which are also the entries that the history counts as fired.
    method Timer(now: int) returns (ret: Code, called: seq<int>)
      requires Sorted(tsSet)
      modifies this
      ensures ret == ZOK
      ensures called == Keys(Due(old(tsSet), now)) && tsSet == NotDue(old(tsSet), now) && Sorted(tsSet)
      ensures |called| <= |old(tsSet)| && tsSet == old(tsSet)[|called|..]
      ensures forall i :: 0 <= i < |called| ==> called[i] == old(tsSet)[i].key && old(tsSet)[i].deadline <= now
      ensures forall e :: e in tsSet ==> now < e.deadline
      ensures old(Valid()) ==>
        && Valid() && history == Perform(old(history), TimerOp(now))
        && |history.fired| == |old(history.fired)| + |called|
        && forall i :: 0 <= i < |called| ==> history.fired[|old(history.fired)| + i].0.key == called[i]
    {
      called := [];
      while tsSet != []
        invariant |called| <= |old(tsSet)| && tsSet == old(tsSet)[|called|..] && history == old(history)
        invariant forall i :: 0 <= i < |called| ==> called[i] == old(tsSet)[i].key && old(tsSet)[i].deadline <= now
        decreases |tsSet|
      {
        if tsSet[0].deadline <= now {
          called := called + [tsSet[0].key];
          tsSet := tsSet[1..];
        } else {
          break;
        }
      }
      ScanStops(old(tsSet), |called|, now);
      FiredAreCalled(history, now);
      history := Perform(history, TimerOp(now));
      return ZOK, called;
    }
  }
}
