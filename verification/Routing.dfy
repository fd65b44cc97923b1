/** Source routing over multi-part messages: RoutePath, MsgStack and the framing of a route. */
module Routing {
  import opened Common

  // A frame is its bytes; the empty frame separates the parts of a route.
  type Frame = string

  const BYTE := 0x100 // the hop counter is one byte

  // ----- The operations as functions -----

  // The three frame lists of a RoutePath.
  datatype Route = Route(src: seq<Frame>, body: seq<Frame>, dest: seq<Frame>)

  // CalcRoute: the front identity and the next hop change places.
  function Rerouted(r: Route, hops: nat): (Route, nat, Code)
    requires hops < BYTE && (hops < |r.dest| ==> r.src != [])
  {
    if hops < |r.dest| then
      (r.(src := r.src[0 := r.dest[hops]], dest := r.dest[hops := r.src[0]]), (hops + 1) % BYTE, ZOK)
    else if hops == |r.dest| then (r, hops, ZEOF)
    else (r, hops, ZPARAM_INVALID)
  }

  // How many destinations RotateRoute keeps. The comparison in the code is unsigned, so a
  // negative bound other than -1 + 1 keeps them all.
  function Kept(dest: seq<Frame>, hops: int): nat {
    if hops == 0 || hops + 1 < 0 || |dest| <= hops + 1 then |dest| else hops + 1
  }

  // RotateRoute: the first `hops` destinations reversed, and what else is kept behind them.
  function Rotated(dest: seq<Frame>, hops: int): seq<Frame>
    requires hops <= |dest|
  {
    if hops <= 0 then dest[..Kept(dest, hops)]
    else Reverse(dest[..hops]) + dest[hops..Kept(dest, hops)]
  }

  // The frames that Send(RoutePath&) puts on the wire; only the first source is sent.
  function Wire(r: Route): seq<Frame> {
    (if r.src == [] then [] else [r.src[0]]) + [""] + r.body + [""] + r.dest
  }

  // Recv(RoutePath&) on the frames of one message, adding to a route: the part that the next
  // frame belongs to, 0 to 2, goes up with every empty frame, and beyond 2 with every frame.
  function Receive(r: Route, stat: nat, frames: seq<Frame>): (Route, nat)
    decreases frames
  {
    if frames == [] then (r, stat)
    else
      var f := frames[0];
      if stat < 3 && f != "" then Receive(Append(r, stat, f), stat, frames[1..])
      else Receive(r, stat + 1, frames[1..])
  }

  function Append(r: Route, part: nat, f: Frame): Route
    requires part < 3
  {
    match part
    case 0 => r.(src := r.src + [f])
    case 1 => r.(body := r.body + [f])
    case _ => r.(dest := r.dest + [f])
  }

  const EMPTY := Route([], [], [])

  function Received(frames: seq<Frame>): (Route, Code) {
    var (r, stat) := Receive(EMPTY, 0, frames);
    (r, if stat == 2 then ZOK else ZNOT_SUPPORT)
  }

  // ----- The code that changes the vectors in place -----

  class MsgStack {
    var msgs: seq<Frame>

    constructor (frames: seq<Frame>)
      ensures msgs == frames
    {
      msgs := frames;
    }

    method Rotate()
      modifies this
      ensures msgs == Reverse(old(msgs))
    {
      var i, hops := 0, |msgs| - 1;
      while i < hops
        invariant 0 <= i <= hops + 1 && i + hops == |msgs| - 1 && |msgs| == |old(msgs)|
        invariant forall k :: 0 <= k < |msgs| && !(i <= k <= hops) ==> msgs[k] == old(msgs)[|msgs| - 1 - k]
        invariant forall k :: i <= k <= hops ==> msgs[k] == old(msgs)[k]
        decreases hops - i
      {
        var msg := msgs[i];
        msgs := msgs[i := msgs[hops]];
        msgs := msgs[hops := msg];
        i, hops := i + 1, hops - 1;
      }
    }
  }

  class RoutePath {
    var src: seq<Frame>
    var body: seq<Frame>
    var dest: seq<Frame>
    var needClose: bool
    ghost var closed: seq<Frame> // the frames passed to zmq_msg_close, in order

    constructor ()
      ensures View() == EMPTY && needClose && closed == []
    {
      src, body, dest, needClose := [], [], [], true;
      closed := [];
    }

    function View(): Route
      reads this
    {
      Route(src, body, dest)
    }

    method CalcRoute(hops: nat) returns (hops': nat, ret: Code)
      requires hops < BYTE && (hops < |dest| ==> src != [])
      modifies this`src, this`dest
      ensures (View(), hops', ret) == Rerouted(old(View()), hops)
      ensures ret == if hops < |old(dest)| then ZOK else if hops == |old(dest)| then ZEOF else ZPARAM_INVALID
      ensures ret == ZOK ==> src[0] == old(dest)[hops] && dest[hops] == old(src)[0] && hops' == (hops + 1) % 256
      ensures ret == ZOK ==>
        src[1..] == old(src)[1..] && forall k :: 0 <= k < |dest| && k != hops ==> dest[k] == old(dest)[k]
      ensures ret != ZOK ==> View() == old(View()) && hops' == hops
      ensures |src| == |old(src)| && |dest| == |old(dest)|
    {
      hops' := hops;
      if hops < |dest| {
        var msg := src[0];
        src := src[0 := dest[hops]];
        dest := dest[hops := msg];
        hops' := (hops + 1) % BYTE;
      } else if hops == |dest| {
        return hops', ZEOF;
      } else {
        return hops', ZPARAM_INVALID;
      }
      return hops', ZOK;
    }

    // The overload for one-way routers also says whether the next hop is an outer one: not the
    // last, and without a trailing '*'. An empty identity before the last would be read out of bounds.
    method CalcRouteOut(hops: nat, isOut: bool) returns (hops': nat, isOut': bool, ret: Code)
      requires hops < BYTE && (hops < |dest| ==> src != [])
      requires hops < |dest| && (hops + 1) % BYTE != |dest| ==> dest[hops] != ""
      modifies this`src, this`dest
      ensures (View(), hops', ret) == Rerouted(old(View()), hops)
      ensures ret == if hops < |old(dest)| then ZOK else if hops == |old(dest)| then ZEOF else ZPARAM_INVALID
      ensures ret == ZOK ==> hops' == (hops + 1) % 256
      ensures ret != ZOK ==> View() == old(View()) && hops' == hops
      ensures ret == ZOK ==> (isOut' <==> hops' != |dest| && src[0][|src[0]| - 1] != '*')
      ensures ret != ZOK ==> isOut' == isOut
    {
      hops', isOut' := hops, isOut;
      var size := |dest|;
      if hops < size {
        var msg := src[0];
        src := src[0 := dest[hops]];
        dest := dest[hops := msg];
        hops' := (hops + 1) % BYTE;
        if hops' == size {
          isOut' := false;
        } else {
          isOut' := if src[0][|src[0]| - 1] == '*' then false else true;
        }
      } else if hops == size {
        return hops', isOut', ZEOF;
      } else {
        return hops', isOut', ZPARAM_INVALID;
      }
      return hops', isOut', ZOK;
    }

    method RotateRoute(hops: int)
      requires hops <= |dest|
      modifies this`dest, this`closed
      ensures dest == Rotated(old(dest), hops)
      ensures closed == old(closed) + Reverse(old(dest)[Kept(old(dest), hops)..])
    {
      assert dest[|dest|..] == [] && closed == closed + Reverse(dest[|dest|..]);
      if hops == 0 {
        return;
      }
      while hops + 1 >= 0 && |dest| > hops + 1
        invariant Kept(old(dest), hops) <= |dest| <= |old(dest)|
        invariant dest == old(dest)[..|dest|]
        invariant closed == old(closed) + Reverse(old(dest)[|dest|..])
        decreases |dest|
      {
        ReverseCons(old(dest), |dest| - 1);
        closed := closed + [dest[|dest| - 1]];
        dest := dest[..|dest| - 1];
      }
      ghost var kept := dest;
      assert |kept| == Kept(old(dest), hops);
      var i, h := 0, hops;
      while i < h
        invariant hops > 0 ==> 0 <= i <= h + 1 && i + h == hops
        invariant hops <= 0 ==> i == 0 && h == hops
        invariant closed == old(closed) + Reverse(old(dest)[Kept(old(dest), hops)..])
        invariant |dest| == |kept| >= hops
        invariant forall k :: 0 <= k < |dest| && (k < i || h <= k < hops) ==> dest[k] == kept[hops - 1 - k]
        invariant forall k :: 0 <= k < |dest| && (i <= k < h || hops <= k) ==> dest[k] == kept[k]
        decreases h - i
      {
        var msg := dest[i];
        dest := dest[i := dest[h - 1]];
        dest := dest[h - 1 := msg];
        i, h := i + 1, h - 1;
      }
      RotatedPointwise(old(dest), hops, dest);
    }

    // Closes frames from the back until none is left.
    method CloseAll(frames: seq<Frame>) returns (rest: seq<Frame>)
      modifies this`closed
      ensures rest == [] && closed == old(closed) + Reverse(frames)
    {
      rest := frames;
      while rest != []
        invariant |rest| <= |frames| && rest == frames[..|rest|]
        invariant closed == old(closed) + Reverse(frames[|rest|..])
        decreases |rest|
      {
        ReverseCons(frames, |rest| - 1);
        closed := closed + [rest[|rest| - 1]];
        rest := rest[..|rest| - 1];
      }
      assert frames[0..] == frames;
    }

    method CloseMsg(s: bool, m: bool, d: bool)
      modifies this`src, this`body, this`dest, this`closed
      ensures !needClose ==> View() == EMPTY && closed == old(closed)
      ensures needClose ==>
        && View() == Route(if s then [] else old(src), if m then [] else old(body), if d then [] else old(dest))
        && closed == old(closed) + (if s then Reverse(old(src)) else []) + (if m then Reverse(old(body)) else [])
                                 + (if d then Reverse(old(dest)) else [])
    {
      if !needClose {
        src, body, dest := [], [], [];
        return;
      }
      if s {
        src := CloseAll(src);
      }
      if m {
        body := CloseAll(body);
      }
      if d {
        dest := CloseAll(dest);
      }
    }
  }

  // ----- Properties of the reversal -----

  lemma {:induction false} ReverseCons<T>(s: seq<T>, k: nat)
    requires k < |s|
    ensures Reverse(s[k..]) == Reverse(s[k + 1..]) + [s[k]]
  {
    assert s[k..][1..] == s[k + 1..];
  }

  lemma {:induction false} RotatedPointwise(dest: seq<Frame>, hops: int, r: seq<Frame>)
    requires hops <= |dest| && |r| == Kept(dest, hops)
    requires forall k :: 0 <= k < |r| && k < hops ==> r[k] == dest[hops - 1 - k]
    requires forall k :: 0 <= k < |r| && k >= hops ==> r[k] == dest[k]
    ensures r == Rotated(dest, hops)
  {
    if hops > 0 {
      var front := dest[..hops];
      assert forall k :: 0 <= k < hops ==> Reverse(front)[k] == front[hops - 1 - k] == r[k];
      assert r == r[..hops] + r[hops..];
      assert r[..hops] == Reverse(front);
      assert r[hops..] == dest[hops..|r|];
    } else {
      assert r == dest[..|r|];
    }
  }

  /** Rotating the whole list twice gives it back, and so does rotating a stack twice. */
  lemma {:induction false} RotateTwice(dest: seq<Frame>)
    ensures Rotated(dest, |dest|) == Reverse(dest)
    ensures Rotated(Rotated(dest, |dest|), |dest|) == dest
  {
    ReverseTwice(dest);
    assert dest[..|dest|] == dest && Reverse(dest)[..|dest|] == Reverse(dest);
  }

  /** Rotating h of n destinations keeps the reverse of the first h and at most the one entry
      after them, closes every other entry exactly once, and loses nothing. */
  lemma {:induction false} RotateKeepsOrCloses(dest: seq<Frame>, hops: nat)
    requires 0 < hops <= |dest|
    ensures Rotated(dest, hops)[..hops] == Reverse(dest[..hops])
    ensures Rotated(dest, hops)[hops..] == if hops < |dest| then [dest[hops]] else []
    ensures multiset(Rotated(dest, hops)) + multiset(Reverse(dest[Kept(dest, hops)..])) == multiset(dest)
  {
    var front, kept := Reverse(dest[..hops]), dest[hops..Kept(dest, hops)];
    assert (front + kept)[..hops] == front && (front + kept)[hops..] == kept;
    RotateLosesNothing(dest, hops);
  }

  /** Without hops, or with a count below -1, nothing is rotated and nothing closed; with -1 the
      comparison is with 0 and the whole list is closed. */
  lemma {:induction false} RotateNothing(dest: seq<Frame>, hops: int)
    requires hops <= 0
    ensures hops != -1 ==> Rotated(dest, hops) == dest && Reverse(dest[Kept(dest, hops)..]) == []
    ensures hops == -1 ==> Rotated(dest, hops) == [] && Reverse(dest[Kept(dest, hops)..]) == Reverse(dest)
  {
    assert dest[..|dest|] == dest && dest[0..] == dest;
  }

  lemma {:induction false} RotateLosesNothing(dest: seq<Frame>, hops: nat)
    requires 0 < hops <= |dest|
    ensures multiset(Rotated(dest, hops)) + multiset(Reverse(dest[Kept(dest, hops)..])) == multiset(dest)
  {
    ThreeParts(dest, hops, Kept(dest, hops));
  }

  // Reversing two of three parts of a list keeps what is in it.
  lemma {:induction false} ThreeParts<T>(s: seq<T>, i: nat, j: nat)
    requires i <= j <= |s|
    ensures multiset(Reverse(s[..i]) + s[i..j]) + multiset(Reverse(s[j..])) == multiset(s)
  {
    ReverseMultiset(s[..i]);
    ReverseMultiset(s[j..]);
    assert s == s[..i] + s[i..j] + s[j..];
  }

  lemma {:induction false} ReverseMultiset<T>(s: seq<T>)
    ensures multiset(Reverse(s)) == multiset(s)
  {
    if s != [] {
      ReverseMultiset(s[1..]);
      assert s == [s[0]] + s[1..];
    }
  }
}
