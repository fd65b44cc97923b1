/** Framing a route on the wire, and routes travelling through a network of routers. */
module RouteNetwork {
  import opened Common
  import opened Routing

  // ----- Framing -----

  function Empties(frames: seq<Frame>): nat {
    if frames == [] then 0 else (if frames[0] == "" then 1 else 0) + Empties(frames[1..])
  }

  ghost predicate NoEmpty(frames: seq<Frame>) {
    forall k :: 0 <= k < |frames| ==> frames[k] != ""
  }

  // What has been read when the reader stands in a part.
  function Joined(r: Route, part: nat): seq<Frame> {
    if part == 0 then r.src
    else if part == 1 then r.src + [""] + r.body
    else r.src + [""] + r.body + [""] + r.dest
  }

  lemma {:induction false} ReceiveCounts(r: Route, stat: nat, frames: seq<Frame>)
    ensures stat >= 3 ==> Receive(r, stat, frames).1 >= 3
    ensures stat < 3 ==> (Receive(r, stat, frames).1 == 2 <==> stat + Empties(frames) == 2)
    decreases |frames|
  {
    if frames != [] {
      if stat < 3 && frames[0] != "" {
        ReceiveCounts(Append(r, stat, frames[0]), stat, frames[1..]);
      } else {
        ReceiveCounts(r, stat + 1, frames[1..]);
      }
    }
  }

  ghost predicate AllNoEmpty(r: Route) {
    NoEmpty(r.src) && NoEmpty(r.body) && NoEmpty(r.dest)
  }

  // A route of which nothing beyond the current part has been read.
  ghost predicate ReadUpTo(r: Route, part: nat) {
    (part < 1 ==> r.body == []) && (part < 2 ==> r.dest == []) && AllNoEmpty(r)
  }

  lemma {:induction false} FrameJoins(r: Route, part: nat, f: Frame)
    requires f != "" && part <= 2 && ReadUpTo(r, part)
    ensures ReadUpTo(Append(r, part, f), part)
    ensures Joined(Append(r, part, f), part) == Joined(r, part) + [f]
  {
  }

  lemma {:induction false} SeparatorJoins(r: Route, part: nat)
    requires part < 2 && ReadUpTo(r, part)
    ensures Joined(r, part + 1) == Joined(r, part) + [""]
  {
  }

  lemma {:induction false} ReceiveSplits(r: Route, stat: nat, frames: seq<Frame>)
    requires stat <= 2 && Receive(r, stat, frames).1 == 2 && ReadUpTo(r, stat)
    ensures Joined(Receive(r, stat, frames).0, 2) == Joined(r, stat) + frames
    ensures AllNoEmpty(Receive(r, stat, frames).0)
    decreases |frames|
  {
    if frames == [] {
      assert Joined(r, stat) + frames == Joined(r, stat);
    } else {
      var f, rest := frames[0], frames[1..];
      assert Joined(r, stat) + [f] + rest == Joined(r, stat) + frames;
      if f != "" {
        FrameJoins(r, stat, f);
        ReceiveSplits(Append(r, stat, f), stat, rest);
      } else {
        ReceiveCounts(r, stat + 1, rest);
        SeparatorJoins(r, stat);
        ReceiveSplits(r, stat + 1, rest);
      }
    }
  }

  /** Receiving into an empty route accepts exactly the messages with two empty frames, and then
      splits the message at those two without losing, adding or reordering a frame. */
  lemma {:induction false} ReceivedExactly(frames: seq<Frame>)
    ensures Received(frames).1 == ZOK <==> Empties(frames) == 2
    ensures Received(frames).1 == ZOK ==>
      var r := Received(frames).0;
      r.src + [""] + r.body + [""] + r.dest == frames && AllNoEmpty(r)
  {
    ReceiveCounts(EMPTY, 0, frames);
    if Received(frames).1 == ZOK {
      ReceiveSplits(EMPTY, 0, frames);
      assert Joined(EMPTY, 0) + frames == frames;
    }
  }

  lemma {:induction false} EmptiesAppend(a: seq<Frame>, b: seq<Frame>)
    ensures Empties(a + b) == Empties(a) + Empties(b)
    decreases |a|
  {
    if a == [] {
      assert a + b == b;
    } else {
      assert (a + b)[1..] == a[1..] + b;
      EmptiesAppend(a[1..], b);
    }
  }

  lemma {:induction false} EmptiesZero(a: seq<Frame>)
    ensures Empties(a) == 0 <==> NoEmpty(a)
    decreases |a|
  {
    if a != [] {
      EmptiesZero(a[1..]);
      assert forall k :: 0 < k < |a| ==> a[k] == a[1..][k - 1];
      assert a[0] != "" && NoEmpty(a[1..]) ==> NoEmpty(a);
      assert NoEmpty(a) ==> NoEmpty(a[1..]);
    }
  }

  function FirstEmpty(frames: seq<Frame>): (k: nat)
    ensures k <= |frames|
  {
    if frames == [] || frames[0] == "" then 0 else 1 + FirstEmpty(frames[1..])
  }

  lemma {:induction false} FirstEmptyIs(a: seq<Frame>, b: seq<Frame>)
    requires NoEmpty(a)
    ensures FirstEmpty(a + [""] + b) == |a|
    decreases |a|
  {
    if a != [] {
      assert (a + [""] + b)[1..] == a[1..] + [""] + b;
      FirstEmptyIs(a[1..], b);
    }
  }

  // Of two ways to split a list at its first empty frame, both are the same.
  lemma {:induction false} SplitUnique(a: seq<Frame>, b: seq<Frame>, a': seq<Frame>, b': seq<Frame>)
    requires NoEmpty(a) && NoEmpty(a')
    requires a + [""] + b == a' + [""] + b'
    ensures a == a' && b == b'
  {
    FirstEmptyIs(a, b);
    FirstEmptyIs(a', b');
    var w, w' := a + [""] + b, a' + [""] + b';
    assert w[..|a|] == a && w'[..|a|] == a';
    assert w[|a| + 1..] == b && w'[|a| + 1..] == b';
  }

  lemma {:induction false} EmptiesSplit(a: seq<Frame>, b: seq<Frame>)
    ensures Empties(a + [""] + b) == Empties(a) + 1 + Empties(b)
  {
    EmptiesAppend(a + [""], b);
    EmptiesAppend(a, [""]);
    assert Empties([""]) == 1;
  }

  // The source part that is sent.
  function Front(r: Route): seq<Frame> {
    if r.src == [] then [] else [r.src[0]]
  }

  lemma {:induction false} WireParts(r: Route)
    ensures Wire(r) == Front(r) + [""] + (r.body + [""] + r.dest)
    ensures Empties(Wire(r)) == 2 <==> NoEmpty(Front(r)) && NoEmpty(r.body) && NoEmpty(r.dest)
  {
    EmptiesSplit(Front(r), r.body + [""] + r.dest);
    EmptiesSplit(r.body, r.dest);
    EmptiesZero(Front(r));
    EmptiesZero(r.body);
    EmptiesZero(r.dest);
  }

  // What arrives when the wire form of a route is accepted.
  lemma {:induction false} AcceptedWire(r: Route)
    ensures Received(Wire(r)).1 == ZOK <==> NoEmpty(Front(r)) && NoEmpty(r.body) && NoEmpty(r.dest)
    ensures Received(Wire(r)).1 == ZOK ==> Received(Wire(r)).0 == r.(src := Front(r))
  {
    WireParts(r);
    ReceivedExactly(Wire(r));
    if Received(Wire(r)).1 == ZOK {
      var got := Received(Wire(r)).0;
      assert got.src + [""] + (got.body + [""] + got.dest) == got.src + [""] + got.body + [""] + got.dest;
      SplitUnique(got.src, got.body + [""] + got.dest, Front(r), r.body + [""] + r.dest);
      SplitUnique(got.body, got.dest, r.body, r.dest);
    }
  }

  /** Receive after send is the identity exactly on routes with at most one source and no empty
      frame anywhere. */
  lemma {:induction false} ReceiveAfterSend(r: Route)
    ensures Received(Wire(r)) == (r, ZOK) <==> |r.src| <= 1 && AllNoEmpty(r)
  {
    AcceptedWire(r);
    assert Front(r) == r.src <==> |r.src| <= 1;
  }

  // ----- The socket -----

  // A socket: the frames of a message whose last frame is still to come, the messages sent, and
  // how many calls succeed before one fails.
  datatype Wiring = Wiring(part: seq<Frame>, sent: seq<seq<Frame>>, works: nat)

  // Frames are sent up to the first that fails; the last of them may end the message.
  function SendAll(w: Wiring, frames: seq<Frame>, ends: bool): Wiring {
    if w.works < |frames| then Wiring(w.part + frames[..w.works], w.sent, 0)
    else if ends then Wiring([], w.sent + [w.part + frames], w.works - |frames|)
    else Wiring(w.part + frames, w.sent, w.works - |frames|)
  }

  lemma {:induction false} SendAppend(w: Wiring, a: seq<Frame>, b: seq<Frame>, ends: bool)
    ensures SendAll(w, a + b, ends) ==
      if w.works < |a| then SendAll(w, a, false) else SendAll(SendAll(w, a, false), b, ends)
  {
    assert w.part + (a + b) == w.part + a + b;
    if w.works < |a| {
      assert (a + b)[..w.works] == a[..w.works];
    } else if w.works < |a + b| {
      assert w.part + (a + b)[..w.works] == w.part + a + b[..w.works - |a|];
    }
  }

  class Socket {
    var part: seq<Frame>
    var sent: seq<seq<Frame>>
    var works: nat

    function View(): Wiring
      reads this
    {
      Wiring(part, sent, works)
    }

    constructor (works: nat)
      ensures View() == Wiring([], [], works)
    {
      part, sent := [], [];
      this.works := works;
    }

    method ZmqSend(f: Frame, more: bool) returns (ok: bool)
      modifies this
      ensures (ok <==> old(works) > 0) && View() == SendAll(old(View()), [f], !more)
    {
      if works == 0 {
        return false;
      }
      works := works - 1;
      part := part + [f];
      if !more {
        sent := sent + [part];
        part := [];
      }
      return true;
    }

    // Sends frames in order up to the first that fails, none of them the last of the message.
    method SendMore(frames: seq<Frame>) returns (n: nat)
      modifies this
      ensures n == Min(old(works), |frames|) && View() == SendAll(old(View()), frames, false)
    {
      for i := 0 to |frames|
        invariant i <= old(works) && View() == SendAll(old(View()), frames[..i], false)
      {
        SendAppend(old(View()), frames[..i], [frames[i]], false);
        assert frames[..i + 1] == frames[..i] + [frames[i]];
        var ok := ZmqSend(frames[i], true);
        if !ok {
          return i;
        }
      }
      assert frames[..|frames|] == frames;
      return |frames|;
    }

    // The source address and the separator.
    method SendFront(route: RoutePath) returns (ok: bool)
      modifies this, route`src
      ensures View() == SendAll(old(View()), Front(old(route.View())) + [""], false)
      ensures ok <==> old(works) > |Front(old(route.View()))|
      ensures route.src == SentOf(old(route.src), if old(works) == 0 then 0 else 1)
    {
      SendAppend(View(), Front(route.View()), [""], false);
      if |route.src| != 0 {
        ok := ZmqSend(route.src[0], true);
        if !ok {
          return;
        }
        route.src := route.src[0 := ""];
      }
      ok := ZmqSend("", true);
    }

    // The separator and the route to go.
    method SendDest(route: RoutePath) returns (ok: bool)
      modifies this, route`dest
      ensures View() == SendAll(old(View()), [""] + old(route.dest), true)
      ensures ok <==> old(works) > |old(route.dest)|
      ensures route.dest == SentOf(old(route.dest), old(works) - 1)
    {
      var destSize := |route.dest|;
      if destSize == 0 {
        assert [""] + route.dest == [""];
        ok := ZmqSend("", false);
        return;
      }
      ghost var init, last := route.dest[..destSize - 1], [route.dest[destSize - 1]];
      assert [""] + route.dest == [""] + (init + last);
      SendAppend(View(), [""], init + last, true);
      ok := ZmqSend("", true);
      if !ok {
        return;
      }
      SendAppend(View(), init, last, true);
      var n := SendMore(route.dest[..destSize - 1]);
      route.dest := SentOf(route.dest, n);
      if n < destSize - 1 {
        return false;
      }
      ok := ZmqSend(route.dest[destSize - 1], false);
      if ok {
        route.dest := route.dest[destSize - 1 := ""];
      }
    }

    // Each frame that is sent is left empty behind, and after the last one the route no longer
    // owns what it held. When a call fails, the frames before it stay a message without an end.
    method Send(route: RoutePath) returns (ret: Code)
      modifies this, route
      ensures
        var wire := Wire(old(route.View()));
        ret == if |old(route.body)| < 2 then ZPARAM_INVALID else if old(works) < |wire| then ZFAIL else ZOK
      ensures ret == ZPARAM_INVALID ==> View() == old(View()) && route.View() == old(route.View())
      ensures ret != ZPARAM_INVALID ==>
        View() == SendAll(old(View()), Wire(old(route.View())), true)
        && route.View() == LeftBy(old(route.View()), old(works))
      ensures ret == ZOK ==> sent == old(sent) + [old(part) + Wire(old(route.View()))] && part == []
      ensures ret == ZFAIL ==>
        sent == old(sent) && part == old(part) + Wire(old(route.View()))[..old(works)] && works == 0
      ensures route.needClose == (ret != ZOK && old(route.needClose)) && route.closed == old(route.closed)
    {
      if |route.body| < 2 {
        return ZPARAM_INVALID;
      }
      ghost var front, body, back := Front(route.View()) + [""], route.body, [""] + route.dest;
      assert Wire(route.View()) == front + (body + back);
      SendAppend(View(), front, body + back, true);
      var ok := SendFront(route);
      if !ok {
        return ZFAIL;
      }
      SendAppend(View(), body, back, true);
      var n := SendMore(route.body);
      route.body := SentOf(route.body, n);
      if n < |route.body| {
        return ZFAIL;
      }
      ok := SendDest(route);
      if !ok {
        return ZFAIL;
      }
      route.needClose := false;
      return ZOK;
    }

    // One message is never without a frame.
    method Recv(route: RoutePath, frames: seq<Frame>) returns (ret: Code)
      requires frames != []
      modifies this`works, route
      ensures
        var got := frames[..Min(old(works), |frames|)];
        && route.View() == Receive(old(route.View()), 0, got).0 && works == old(works) - |got|
        && route.closed == old(route.closed) + Discarded(0, got)
        && ret == (if got != frames then ZFAIL
                   else if Receive(old(route.View()), 0, frames).1 == 2 then ZOK else ZNOT_SUPPORT)
      ensures route.needClose == old(route.needClose)
    {
      ghost var got := frames[..Min(works, |frames|)];
      var stat, i, more := 0, 0, true;
      while more
        invariant 0 <= i <= |got| && works == old(works) - i && (more <==> i < |frames|)
        invariant Receive(old(route.View()), 0, got) == Receive(route.View(), stat, got[i..])
        invariant old(route.closed) + Discarded(0, got) == route.closed + Discarded(stat, got[i..])
        invariant route.needClose == old(route.needClose)
        invariant stat >= 0
        decreases |frames| - i
      {
        if works == 0 {
          return ZFAIL;
        }
        works := works - 1;
        var msg := frames[i];
        assert got[i..][0] == msg && got[i..][1..] == got[i + 1..];
        i := i + 1;
        more := i < |frames|;
        if stat < 3 && msg != "" {
          if stat == 0 {
            route.src := route.src + [msg];
          } else if stat == 1 {
            route.body := route.body + [msg];
          } else {
            route.dest := route.dest + [msg];
          }
        } else {
          stat := stat + 1;
          route.closed := route.closed + [msg];
        }
      }
      assert got == frames;
      if stat != 2 {
        return ZNOT_SUPPORT;
      }
      return ZOK;
    }
  }

  function Min(a: nat, b: nat): nat {
    if a < b then a else b
  }

  // Frames of which the first n were sent: those are empty now.
  function SentOf(frames: seq<Frame>, n: int): (r: seq<Frame>)
    ensures |r| == |frames|
    ensures forall k :: 0 <= k < |r| ==> r[k] == if k < n then "" else frames[k]
  {
    seq(|frames|, k requires 0 <= k < |frames| => if k < n then "" else frames[k])
  }

  // What sending the first n frames of the wire form leaves of a route.
  function LeftBy(r: Route, n: nat): Route {
    Route(SentOf(r.src, if n == 0 then 0 else 1),
          SentOf(r.body, n - |Front(r)| - 1),
          SentOf(r.dest, n - |Front(r)| - 1 - |r.body| - 1))
  }

  lemma {:induction false} SentAppend(a: seq<Frame>, b: seq<Frame>, n: int)
    ensures SentOf(a + b, n) == SentOf(a, n) + SentOf(b, n - |a|)
  {
  }

  // A part with a separator before it.
  lemma {:induction false} SentBehind(a: seq<Frame>, b: seq<Frame>, n: int)
    ensures SentOf(a + ([""] + b), n) == SentOf(a, n) + ([""] + SentOf(b, n - |a| - 1))
  {
    SentAppend(a, [""] + b, n);
    SentAppend([""], b, n - |a|);
    assert SentOf([""], n - |a|) == [""];
  }

  lemma {:induction false} SentInThree(a: seq<Frame>, b: seq<Frame>, c: seq<Frame>, n: int)
    ensures
      SentOf(a + ([""] + (b + ([""] + c))), n) ==
      SentOf(a, n) + ([""] + (SentOf(b, n - |a| - 1) + ([""] + SentOf(c, n - |a| - 1 - |b| - 1))))
  {
    SentBehind(a, b + ([""] + c), n);
    SentBehind(b, c, n - |a| - 1);
  }

  lemma {:induction false} WireNested(r: Route)
    ensures Wire(r) == Front(r) + ([""] + (r.body + ([""] + r.dest)))
  {
  }

  /** Of the frames of a route that go on the wire, exactly those sent are left empty; all the
      others, and the sources that are never sent, are as they were. */
  lemma {:induction false} SentAreEmpty(r: Route, n: nat)
    ensures Wire(LeftBy(r, n)) == SentOf(Wire(r), n)
    ensures |LeftBy(r, n).src| == |r.src| && |LeftBy(r, n).body| == |r.body| && |LeftBy(r, n).dest| == |r.dest|
    ensures r.src != [] ==> LeftBy(r, n).src[1..] == r.src[1..]
  {
    PartsLeft(r, n);
    WireNested(r);
    WireNested(LeftBy(r, n));
    SentInThree(Front(r), r.body, r.dest, n);
  }

  lemma {:induction false} PartsLeft(r: Route, n: nat)
    ensures Front(LeftBy(r, n)) == SentOf(Front(r), n)
    ensures |LeftBy(r, n).src| == |r.src| && |LeftBy(r, n).body| == |r.body| && |LeftBy(r, n).dest| == |r.dest|
    ensures r.src != [] ==> LeftBy(r, n).src[1..] == r.src[1..]
  {
  }

  // The frames that Recv closes instead of keeping.
  function Discarded(stat: nat, frames: seq<Frame>): seq<Frame>
    decreases frames
  {
    if frames == [] then []
    else if stat < 3 && frames[0] != "" then Discarded(stat, frames[1..])
    else [frames[0]] + Discarded(stat + 1, frames[1..])
  }

  /** No frame that is received is lost or closed twice: each is in one of the three parts or was
      closed, and of a message that is accepted just the two separators were closed. */
  lemma {:induction false} KeptOrClosed(frames: seq<Frame>)
    ensures Frames(Received(frames).0) + multiset(Discarded(0, frames)) == multiset(frames)
    ensures Received(frames).1 == ZOK ==> Discarded(0, frames) == ["", ""]
  {
    ReceiveKeepsOrCloses(EMPTY, 0, frames);
    DiscardedAre(EMPTY, 0, frames);
  }

  function Frames(r: Route): multiset<Frame> {
    multiset(r.src) + multiset(r.body) + multiset(r.dest)
  }

  lemma {:induction false} OneMore<T>(x: T, a: multiset<T>, s: seq<T>, b: multiset<T>, t: seq<T>)
    requires a + multiset(s) == b + multiset(t)
    ensures a + multiset([x] + s) == b + multiset([x] + t)
  {
    assert a + multiset([x] + s) == (a + multiset(s)) + multiset{x};
    assert b + multiset([x] + t) == (b + multiset(t)) + multiset{x};
  }

  lemma {:induction false} ReceiveKeepsOrCloses(r: Route, stat: nat, frames: seq<Frame>)
    ensures Frames(Receive(r, stat, frames).0) + multiset(Discarded(stat, frames)) == Frames(r) + multiset(frames)
    decreases |frames|
  {
    if frames != [] {
      var f, rest := frames[0], frames[1..];
      assert frames == [f] + rest;
      if stat < 3 && f != "" {
        ReceiveKeepsOrCloses(Append(r, stat, f), stat, rest);
        assert Frames(Append(r, stat, f)) == Frames(r) + multiset{f};
      } else {
        ReceiveKeepsOrCloses(r, stat + 1, rest);
        OneMore(f, Frames(Receive(r, stat + 1, rest).0), Discarded(stat + 1, rest), Frames(r), rest);
      }
    }
  }

  lemma {:induction false} DiscardedAre(r: Route, stat: nat, frames: seq<Frame>)
    requires stat <= 2
    ensures Receive(r, stat, frames).1 == stat + |Discarded(stat, frames)|
    ensures Receive(r, stat, frames).1 <= 2 ==>
      forall k :: 0 <= k < |Discarded(stat, frames)| ==> Discarded(stat, frames)[k] == ""
    decreases |frames|
  {
    if frames != [] {
      var f, rest := frames[0], frames[1..];
      if f != "" {
        DiscardedAre(Append(r, stat, f), stat, rest);
      } else if stat < 2 {
        DiscardedAre(r, stat + 1, rest);
      } else {
        BeyondFrom(r, 3, rest);
      }
    }
  }

  // Behind the third separator every frame is closed.
  lemma {:induction false} BeyondFrom(r: Route, stat: nat, frames: seq<Frame>)
    requires stat >= 3
    ensures Receive(r, stat, frames).1 == stat + |frames| && Discarded(stat, frames) == frames
    decreases |frames|
  {
    if frames != [] {
      BeyondFrom(r, stat + 1, frames[1..]);
    }
  }

  // ----- The network -----

  // A message that has just been received at a node.
  datatype Transit = Transit(at: Frame, route: Route, hops: nat)

  // A node sends a route. The router socket takes the identity in front as the peer to send to,
  // and the peer finds the sender's identity in front (ZeroMQ RFC 28/REQREP, section "The ROUTER Socket Type").
  function Hop(from: Frame, r: Route, hops: nat): (Transit, Code) {
    var wire := Wire(r);
    if |r.body| < 2 then (Transit(from, r, hops), ZPARAM_INVALID)
    else
      var (r', c) := Received([from] + wire[1..]);
      (Transit(wire[0], r', hops), c)
  }

  // A node that received a route works out the next hop and sends it on.
  function Forward(t: Transit): (Transit, Code)
    requires t.hops < BYTE && (t.hops < |t.route.dest| ==> t.route.src != [])
  {
    var (r, hops, c) := Rerouted(t.route, t.hops);
    if c != ZOK then (t, c) else Hop(t.at, r, hops)
  }

  // The node that sees the end mark rotates the list with the counter that CalcRoute left.
  function TurnedRound(t: Transit): (Route, Code)
    requires t.hops < BYTE && (t.hops < |t.route.dest| ==> t.route.src != [])
  {
    var (r, hops, c) := Rerouted(t.route, t.hops);
    (if c != ZEOF then r else r.(dest := Rotated(r.dest, hops)), c)
  }

  // The target turns the route round and answers the node it got the message from.
  function Reply(t: Transit, body: seq<Frame>): (Transit, Code)
    requires t.hops < BYTE && (t.hops < |t.route.dest| ==> t.route.src != [])
  {
    var (r, c) := TurnedRound(t);
    if c != ZEOF then (t, c) else Hop(t.at, r.(body := body), 0)
  }

  // Forwarding k times; the last component tells whether every hop went well.
  function Run(t: Transit, k: nat): (Transit, Code)
  {
    if k == 0 then (t, ZOK)
    else
      var (t1, c) := Run(t, k - 1);
      if c != ZOK || t1.hops >= BYTE || t1.route.src == [] then (t1, if c != ZOK then c else ZPARAM_INVALID)
      else Forward(t1)
  }

  // The code with which the node that holds the message after k hops stops or goes on.
  function MarkAfter(t: Transit, k: nat): Code {
    var (t1, c) := Run(t, k);
    if c != ZOK || t1.hops >= BYTE || t1.route.src == [] then ZPARAM_INVALID
    else Rerouted(t1.route, t1.hops).2
  }

  ghost predicate CanTravel(path: seq<Frame>, body: seq<Frame>) {
    |path| >= 2 && NoEmpty(path) && |body| >= 2 && NoEmpty(body)
  }

  // The message sent along a path of nodes: from the first, through the second, to the last.
  function Start(path: seq<Frame>, body: seq<Frame>): (Transit, Code)
    requires |path| >= 2
  {
    Hop(path[0], Route([path[1]], body, path[2..]), 0)
  }

  // Where a message sent along a path is after k hops.
  function After(path: seq<Frame>, body: seq<Frame>, k: nat): Transit
    requires k + 2 <= |path|
  {
    Transit(path[k + 1], Route([path[k]], body, path[..k] + path[k + 2..]), k)
  }

  lemma {:induction false} HopArrives(from: Frame, r: Route, hops: nat)
    requires from != "" && |r.src| == 1 && |r.body| >= 2
    requires AllNoEmpty(r)
    ensures Hop(from, r, hops) == (Transit(r.src[0], r.(src := [from]), hops), ZOK)
  {
    var arrived := r.(src := [from]);
    assert [from] + Wire(r)[1..] == Wire(arrived);
    ReceiveAfterSend(arrived);
  }

  lemma {:induction false} NextHop(path: seq<Frame>, body: seq<Frame>, k: nat)
    requires k + 3 <= |path| && k + 1 < BYTE
    ensures
      Rerouted(After(path, body, k).route, k)
      == (Route([path[k + 2]], body, path[..k + 1] + path[k + 3..]), k + 1, ZOK)
  {
    var before := path[..k] + path[k + 2..];
    assert before[k] == path[k + 2];
    assert before[k := path[k]] == path[..k + 1] + path[k + 3..];
    assert [path[k]][0 := path[k + 2]] == [path[k + 2]];
  }

  lemma {:induction false} ForwardStep(path: seq<Frame>, body: seq<Frame>, k: nat)
    requires CanTravel(path, body) && k + 3 <= |path| && k + 1 < BYTE
    ensures Forward(After(path, body, k)) == (After(path, body, k + 1), ZOK)
  {
    NextHop(path, body, k);
    var dest := path[..k + 1] + path[k + 3..];
    assert forall i :: 0 <= i < |dest| ==> dest[i] == path[if i <= k then i else i + 2];
    HopArrives(path[k + 1], Route([path[k + 2]], body, dest), k + 1);
  }

  lemma {:induction false} StartArrives(path: seq<Frame>, body: seq<Frame>)
    requires CanTravel(path, body)
    ensures Start(path, body) == (After(path, body, 0), ZOK)
  {
    assert path[..0] + path[2..] == path[2..];
    assert forall i :: 0 <= i < |path[2..]| ==> path[2..][i] == path[i + 2];
    HopArrives(path[0], Route([path[1]], body, path[2..]), 0);
  }

  /** The first hop arrives exactly when the body has two frames or more and no frame but the next
      identity is empty; a shorter body is refused and the message stays where it is. */
  lemma {:induction false} StartExactly(path: seq<Frame>, body: seq<Frame>)
    requires |path| >= 2
    ensures |body| < 2 ==>
      Start(path, body) == (Transit(path[0], Route([path[1]], body, path[2..]), 0), ZPARAM_INVALID)
    ensures |body| >= 2 ==>
      (Start(path, body).1 == ZOK <==> path[0] != "" && NoEmpty(body) && NoEmpty(path[2..]))
    ensures Start(path, body).1 == ZOK ==> Start(path, body).0 == After(path, body, 0)
  {
    var sent, arrived := Route([path[1]], body, path[2..]), Route([path[0]], body, path[2..]);
    assert [path[0]] + Wire(sent)[1..] == Wire(arrived);
    AcceptedWire(arrived);
    assert NoEmpty(Front(arrived)) <==> path[0] != "" by {
      assert Front(arrived) == [path[0]];
    }
    assert path[..0] + path[2..] == path[2..];
  }

  /** Forwarding. For every path of at most 255 further nodes, after k hops the message is at the
      next node of the path, the identity in front is the node before, and the destination list
      is the first k senders in order followed by the part not used yet. */
  lemma {:induction false} Forwarding(path: seq<Frame>, body: seq<Frame>, k: nat)
    requires CanTravel(path, body) && |path| - 2 < BYTE && k + 2 <= |path|
    ensures Start(path, body).1 == ZOK
    ensures Run(Start(path, body).0, k) == (After(path, body, k), ZOK)
  {
    StartArrives(path, body);
    if k > 0 {
      Forwarding(path, body, k - 1);
      ForwardStep(path, body, k - 1);
    }
  }

  /** End mark. With at most 255 hops the target sees the end mark after exactly as many hops as
      the list was long and no node sees it before; the message goes no further from there. */
  lemma {:induction false} EndMarkOnTime(path: seq<Frame>, body: seq<Frame>, k: nat)
    requires CanTravel(path, body) && |path| - 2 < BYTE && k + 2 <= |path|
    ensures MarkAfter(Start(path, body).0, k) == if k == |path| - 2 then ZEOF else ZOK
    ensures k == |path| - 2 ==> Run(Start(path, body).0, k + 1) == (After(path, body, k), ZEOF)
  {
    Forwarding(path, body, k);
  }

  // A message that can go on for ever: its list is longer than the counter can count.
  ghost predicate Endless(t: Transit) {
    && t.at != "" && t.hops < BYTE <= |t.route.dest| && |t.route.src| == 1 && |t.route.body| >= 2
    && AllNoEmpty(t.route)
  }

  lemma {:induction false} EndlessGoesOn(t: Transit, k: nat)
    requires Endless(t)
    ensures Run(t, k).1 == ZOK && Endless(Run(t, k).0)
  {
    if k > 0 {
      EndlessGoesOn(t, k - 1);
      var t1 := Run(t, k - 1).0;
      var (r, hops, c) := Rerouted(t1.route, t1.hops);
      HopArrives(t1.at, r, hops);
    }
  }

  /** The one-byte counter bounds the route: a message reaches a node that sees the end mark if
      and only if its list has at most 255 entries; a longer one is forwarded for ever. */
  lemma {:induction false} EndMarkExactly(path: seq<Frame>, body: seq<Frame>)
    requires CanTravel(path, body)
    ensures (exists k: nat :: MarkAfter(Start(path, body).0, k) == ZEOF) <==> |path| - 2 <= 255
  {
    if |path| - 2 <= 255 {
      EndMarkOnTime(path, body, |path| - 2);
    } else {
      StartArrives(path, body);
      assert path[..0] + path[2..] == path[2..];
      assert forall i :: 0 <= i < |path[2..]| ==> path[2..][i] == path[i + 2];
      var t := Start(path, body).0;
      forall k: nat ensures MarkAfter(t, k) != ZEOF {
        EndlessGoesOn(t, k);
      }
    }
  }

  // Dropping the last entries of a list is dropping the first of its reverse.
  lemma {:induction false} ReverseDrops(path: seq<Frame>, n: nat)
    requires n <= |path|
    ensures Reverse(path)[|path| - n..] == Reverse(path[..n])
    ensures Reverse(path)[..|path| - n] == Reverse(path[n..])
  {
    var way := Reverse(path);
    forall i | 0 <= i < n ensures way[|path| - n..][i] == Reverse(path[..n])[i] {
      assert way[|path| - n + i] == path[n - 1 - i];
    }
    forall i | 0 <= i < |path| - n ensures way[..|path| - n][i] == Reverse(path[n..])[i] {
      assert way[i] == path[|path| - 1 - i] == path[n..][|path| - n - 1 - i];
    }
  }

  lemma {:induction false} ReplyIsStart(path: seq<Frame>, body: seq<Frame>, answer: seq<Frame>)
    requires 2 <= |path| < BYTE + 2
    ensures
      var target := After(path, body, |path| - 2);
      target.hops == |target.route.dest| && Reply(target, answer) == Start(Reverse(path), answer)
  {
    var n := |path| - 2;
    var target, way := After(path, body, n), Reverse(path);
    assert target.route.dest == path[..n];
    assert Rotated(target.route.dest, n) == way[2..] by {
      RotateTwice(path[..n]);
      ReverseDrops(path, n);
    }
    assert target.at == way[0] && target.route.src == [way[1]];
  }

  lemma {:induction false} HomeRoute(path: seq<Frame>, answer: seq<Frame>)
    requires 2 <= |path| < BYTE + 2
    ensures
      var (r, c) := TurnedRound(After(Reverse(path), answer, |path| - 2));
      c == ZEOF && r.dest == path[2..]
  {
    var n, way := |path| - 2, Reverse(path);
    assert After(way, answer, n).route.dest == way[..n];
    ReverseDrops(path, 2);
    ReverseTwice(path[2..]);
    RotateTwice(way[..n]);
  }

  /** Request and reply. For every route of n <= 255 hops the request is at the last node of the
      path after n hops; turning the list round there gives a message that is, after each number
      of hops, where a message sent along the reversed path would be; and at the origin, which it
      reaches after n hops, turning the list round restores the list first sent. */
  lemma {:induction false} RequestReply(path: seq<Frame>, body: seq<Frame>, answer: seq<Frame>)
    requires CanTravel(path, body) && CanTravel(path, answer) && |path| - 2 < BYTE
    ensures Run(Start(path, body).0, |path| - 2) == (After(path, body, |path| - 2), ZOK)
    ensures Reply(After(path, body, |path| - 2), answer) == (After(Reverse(path), answer, 0), ZOK)
    ensures forall k: nat :: k + 2 <= |path| ==>
      Run(After(Reverse(path), answer, 0), k) == (After(Reverse(path), answer, k), ZOK)
    ensures After(Reverse(path), answer, |path| - 2).at == path[0]
    ensures
      var (r, c) := TurnedRound(After(Reverse(path), answer, |path| - 2));
      c == ZEOF && r.dest == path[2..]
  {
    var way := Reverse(path);
    Forwarding(path, body, |path| - 2);
    ReplyIsStart(path, body, answer);
    StartArrives(way, answer);
    HomeRoute(path, answer);
    forall k: nat | k + 2 <= |path| ensures Run(After(way, answer, 0), k) == (After(way, answer, k), ZOK) {
      Forwarding(way, answer, k);
    }
  }
}
