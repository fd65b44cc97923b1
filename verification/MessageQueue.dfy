/** The double-buffered queue MsgQueue, as steps of producers and consumers that interleave. */
module MessageQueue {
  import opened Common

  // ----- The state machine -----

  // Push holds spin_in for its whole length, so at most one producer is inside. It reads the
  // pointer que_in before each of its two uses, and the exchange does not take spin_in: `current`
  // says whether the pointer it read is still que_in; otherwise it is what que_out is now.
  datatype Producer<T> =
    | Outside
    | Loaded(t: T, current: bool)  // has read que_in, about to push
    | Pushed                     // has pushed, about to read que_in for the size test
    | Testing(current: bool)       // has read que_in, about to test its size
    | Posting                    // found size 1, about to post

  // Pop holds spin_out for its whole length, so at most one consumer is inside.
  datatype Consumer =
    | Away
    | Waiting  // found que_out empty, in zsem_wait
    | Woken    // took the token, about to exchange
    | Taking   // about to take the front

  // `pushed` and `popped` record what went in and came out, in order. A queue whose front was
  // taken while it was empty has behaved in a way C++ does not define.
  datatype State<T> = State(
    queIn: seq<T>, queOut: seq<T>, sem: nat, producer: Producer<T>, consumer: Consumer,
    pushed: seq<T>, popped: seq<T>, undefined: bool)

  datatype Label<T> =
    | Load(t: T) | Store | LoadAgain | Test | Post
    | Check | Wait | TimeOut | Exchange | Take

  function Init<T>(): State<T> {
    State([], [], 0, Outside, Away, [], [], false)
  }

  predicate Enabled<T>(s: State<T>, l: Label<T>) {
    match l
    case Load(_) => s.producer.Outside?
    case Store => s.producer.Loaded?
    case LoadAgain => s.producer.Pushed?
    case Test => s.producer.Testing?
    case Post => s.producer.Posting?
    case Check => s.consumer.Away?
    case Wait => s.consumer.Waiting? && s.sem > 0
    case TimeOut => s.consumer.Waiting?
    case Exchange => s.consumer.Woken?
    case Take => s.consumer.Taking?
  }

  // A pointer read before an exchange points to the other queue afterwards.
  function Turned<T>(p: Producer<T>): Producer<T> {
    match p
    case Loaded(t, current) => Loaded(t, !current)
    case Testing(current) => Testing(!current)
    case _ => p
  }

  function Next<T>(s: State<T>, l: Label<T>): State<T>
    requires Enabled(s, l)
  {
    match l
    case Load(t) => s.(producer := Loaded(t, true))
    case Store =>
      var t := s.producer.t;
      if s.producer.current then s.(queIn := s.queIn + [t], pushed := s.pushed + [t], producer := Pushed)
      else s.(queOut := s.queOut + [t], pushed := s.pushed + [t], producer := Pushed)
    case LoadAgain => s.(producer := Testing(true))
    case Test =>
      var size := if s.producer.current then |s.queIn| else |s.queOut|;
      s.(producer := if size == 1 then Posting else Outside)
    case Post => s.(sem := s.sem + 1, producer := Outside)
    case Check => s.(consumer := if s.queOut == [] then Waiting else Taking)
    case Wait => s.(sem := s.sem - 1, consumer := Woken)
    case TimeOut => s.(consumer := Away)
    case Exchange => s.(queIn := s.queOut, queOut := s.queIn, consumer := Taking, producer := Turned(s.producer))
    case Take =>
      if s.queOut == [] then s.(consumer := Away, undefined := true)
      else s.(queOut := s.queOut[1..], popped := s.popped + [s.queOut[0]], consumer := Away)
  }

  ghost predicate CanRun<T>(s: State<T>, run: seq<Label<T>>)
    decreases |run|
  {
    run == [] || (Enabled(s, run[0]) && CanRun(Next(s, run[0]), run[1..]))
  }

  function After<T>(s: State<T>, run: seq<Label<T>>): State<T>
    requires CanRun(s, run)
    decreases |run|
  {
    if run == [] then s else After(Next(s, run[0]), run[1..])
  }

  // ----- The invariant -----

  function One(b: bool): nat {
    if b then 1 else 0
  }

  // The token that says que_in is not empty: in the semaphore, with the consumer that took it,
  // or with the producer that will post it.
  function Tokens<T>(s: State<T>): nat {
    s.sem + One(s.consumer.Woken?) + One(s.producer.Posting?)
    + One((s.producer.Pushed? || (s.producer.Testing? && s.producer.current)) && |s.queIn| == 1)
  }

  ghost predicate Inv<T>(s: State<T>) {
    // nothing lost, duplicated or reordered
    && s.pushed == s.popped + s.queOut + s.queIn
    // exactly one token while que_in is not empty
    && Tokens(s) == One(s.queIn != [])
    // a consumer past its check still finds que_out as the check found it
    && (s.consumer.Waiting? || s.consumer.Woken? ==> s.queOut == [])
    && (s.consumer.Taking? ==> s.queOut != [])
    // a pointer that went stale did so in an exchange, which left que_in empty
    && ((s.producer.Loaded? || s.producer.Testing?) && !s.producer.current ==> s.queIn == [])
    && !s.undefined
  }

  // The two steps that break it: storing into que_out behind the back of a consumer that found
  // it empty, and mistaking the size of que_out for that of que_in.
  predicate Hazard<T>(s: State<T>, l: Label<T>) {
    || (l.Store? && s.producer.Loaded? && !s.producer.current && s.consumer.Waiting?)
    || (l.Test? && s.producer.Testing? && !s.producer.current && |s.queOut| == 1)
  }

  lemma {:induction false} InitInv<T>()
    ensures Inv(Init<T>())
  {
  }

  /** A step from a good state leads to a good state if and only if it is neither hazard. What a
      hazard means for the values that come out is HazardExactly, below. */
  lemma {:induction false} StepExactly<T>(s: State<T>, l: Label<T>)
    requires Inv(s) && Enabled(s, l)
    ensures Inv(Next(s, l)) <==> !Hazard(s, l)
  {
    match l
    case Store =>
      assert (s.popped + s.queOut + s.queIn) + [s.producer.t] == s.popped + s.queOut + (s.queIn + [s.producer.t]);
      if !s.producer.current {
        assert s.popped + (s.queOut + [s.producer.t]) + [] == s.popped + s.queOut + [] + [s.producer.t];
      }
    case Exchange =>
      assert s.popped + [] + s.queIn == s.popped + s.queIn + [];
    case Take =>
      assert s.popped + [s.queOut[0]] + s.queOut[1..] == s.popped + s.queOut;
    case _ =>
  }

  ghost predicate HazardFree<T>(s: State<T>, run: seq<Label<T>>)
    requires CanRun(s, run)
    decreases |run|
  {
    run == [] || (!Hazard(s, run[0]) && HazardFree(Next(s, run[0]), run[1..]))
  }

  lemma {:induction false} RunsKeepInv<T>(s: State<T>, run: seq<Label<T>>)
    requires Inv(s) && CanRun(s, run) && HazardFree(s, run)
    ensures Inv(After(s, run))
    decreases |run|
  {
    if run != [] {
      StepExactly(s, run[0]);
      RunsKeepInv(Next(s, run[0]), run[1..]);
    }
  }

  /** Queue FIFO and wakeup token, over every interleaving without a hazard: what was pushed is
      what was popped, then que_out, then que_in, in order; there is exactly one token while
      que_in holds something and none otherwise; the front of an empty queue is never taken. */
  lemma {:induction false} FifoAndToken<T>(run: seq<Label<T>>)
    requires CanRun(Init<T>(), run) && HazardFree(Init<T>(), run)
    ensures
      var s := After(Init<T>(), run);
      && s.pushed == s.popped + s.queOut + s.queIn
      && Tokens(s) == One(s.queIn != [])
      && (s.consumer.Woken? ==> s.queIn != [])
      && !s.undefined && (Enabled(s, Take) ==> s.queOut != [])
  {
    InitInv<T>();
    RunsKeepInv(Init<T>(), run);
  }

  // ----- The records and the labels of a run -----

  // The values that the pushes of a run are given, in order.
  function Given<T>(run: seq<Label<T>>): seq<T> {
    if run == [] then [] else (if run[0].Load? then [run[0].t] else []) + Given(run[1..])
  }

  // How many fronts a run takes.
  function Taken<T>(run: seq<Label<T>>): nat {
    if run == [] then 0 else (if run[0].Take? then 1 else 0) + Taken(run[1..])
  }

  // A value that a producer has been given and not stored yet.
  function Pending<T>(s: State<T>): seq<T> {
    if s.producer.Loaded? then [s.producer.t] else []
  }

  lemma {:induction false} RecordsStep<T>(s: State<T>, l: Label<T>)
    requires Enabled(s, l)
    ensures Next(s, l).pushed + Pending(Next(s, l)) == s.pushed + Pending(s) + if l.Load? then [l.t] else []
    ensures !Next(s, l).undefined ==> !s.undefined && |Next(s, l).popped| == |s.popped| + if l.Take? then 1 else 0
  {
  }

  lemma {:induction false} RecordsFollow<T>(s: State<T>, run: seq<Label<T>>)
    requires CanRun(s, run)
    ensures After(s, run).pushed + Pending(After(s, run)) == s.pushed + Pending(s) + Given(run)
    ensures !After(s, run).undefined ==> !s.undefined && |After(s, run).popped| == |s.popped| + Taken(run)
    decreases |run|
  {
    if run != [] {
      RecordsStep(s, run[0]);
      RecordsFollow(Next(s, run[0]), run[1..]);
      var given := if run[0].Load? then [run[0].t] else [];
      assert s.pushed + Pending(s) + given + Given(run[1..]) == s.pushed + Pending(s) + Given(run);
    }
  }

  /** Told by the labels alone: in every interleaving without a hazard, the values that the pushes
      were given are, in order, those that came out, as many as fronts were taken, then que_out,
      then que_in, then the one that a producer inside has not stored yet. */
  lemma {:induction false} GivenComeOut<T>(run: seq<Label<T>>)
    requires CanRun(Init<T>(), run) && HazardFree(Init<T>(), run)
    ensures
      var s := After(Init<T>(), run);
      Given(run) == s.popped + s.queOut + s.queIn + Pending(s) && |s.popped| == Taken(run)
  {
    FifoAndToken(run);
    RecordsFollow(Init<T>(), run);
  }

  // ----- When reading the pointer and using it are one step -----

  // No exchange comes between a producer's reading of que_in and its use.
  ghost predicate Coarse<T>(s: State<T>, run: seq<Label<T>>)
    requires CanRun(s, run)
    decreases |run|
  {
    || run == []
    || (!(run[0].Exchange? && (s.producer.Loaded? || s.producer.Testing?)) && Coarse(Next(s, run[0]), run[1..]))
  }

  predicate CurrentPointer<T>(s: State<T>) {
    s.producer.Loaded? || s.producer.Testing? ==> s.producer.current
  }

  lemma {:induction false} CoarseIsHazardFree<T>(s: State<T>, run: seq<Label<T>>)
    requires CanRun(s, run) && Coarse(s, run) && CurrentPointer(s)
    ensures HazardFree(s, run)
    decreases |run|
  {
    if run != [] {
      CoarseIsHazardFree(Next(s, run[0]), run[1..]);
    }
  }

  /** With each pointer read and its use as one step, every interleaving is first in, first out,
      whatever else happens between a producer's steps, the exchange before the size test included. */
  lemma {:induction false} CoarseRunsAreFifo<T>(run: seq<Label<T>>)
    requires CanRun(Init<T>(), run) && Coarse(Init<T>(), run)
    ensures Inv(After(Init<T>(), run))
  {
    CoarseIsHazardFree(Init<T>(), run);
    InitInv<T>();
    RunsKeepInv(Init<T>(), run);
  }

  // ----- What a hazard leads to -----

  ghost predicate Leads<T>(s: State<T>, run: seq<Label<T>>, s': State<T>) {
    CanRun(s, run) && After(s, run) == s'
  }

  lemma {:induction false} LeadsFirst<T>(s: State<T>, l: Label<T>, rest: seq<Label<T>>, s': State<T>)
    requires Enabled(s, l) && Leads(Next(s, l), rest, s')
    ensures Leads(s, [l] + rest, s')
  {
    assert ([l] + rest)[1..] == rest;
  }

  lemma {:induction false} LeadsOn<T>(s: State<T>, a: seq<Label<T>>, s1: State<T>, b: seq<Label<T>>, s2: State<T>)
    requires Leads(s, a, s1) && Leads(s1, b, s2)
    ensures Leads(s, a + b, s2)
    decreases |a|
  {
    if a == [] {
      assert a + b == b;
    } else {
      assert (a + b)[1..] == a[1..] + b;
      LeadsOn(Next(s, a[0]), a[1..], s1, b, s2);
    }
  }

  lemma {:induction false} LeadsThree<T>(s: State<T>, a: Label<T>, b: Label<T>, c: Label<T>)
    requires Enabled(s, a) && Enabled(Next(s, a), b) && Enabled(Next(Next(s, a), b), c)
    ensures Leads(s, [a, b, c], Next(Next(Next(s, a), b), c))
  {
    var s1, s2 := Next(s, a), Next(Next(s, a), b);
    LeadsFirst(s2, c, [], Next(s2, c));
    LeadsFirst(s1, b, [c], Next(s2, c));
    LeadsFirst(s, a, [b, c], Next(s2, c));
  }

  // ----- Runs without a hazard, put together -----

  ghost predicate LeadsSafely<T>(s: State<T>, run: seq<Label<T>>, s': State<T>) {
    Leads(s, run, s') && HazardFree(s, run)
  }

  lemma {:induction false} SafelyFirst<T>(s: State<T>, l: Label<T>, rest: seq<Label<T>>, s': State<T>)
    requires Enabled(s, l) && !Hazard(s, l) && LeadsSafely(Next(s, l), rest, s')
    ensures LeadsSafely(s, [l] + rest, s')
  {
    assert ([l] + rest)[1..] == rest;
  }

  lemma {:induction false} SafelyOn<T>(s: State<T>, a: seq<Label<T>>, s1: State<T>, b: seq<Label<T>>, s2: State<T>)
    requires LeadsSafely(s, a, s1) && LeadsSafely(s1, b, s2)
    ensures LeadsSafely(s, a + b, s2)
    decreases |a|
  {
    if a == [] {
      assert a + b == b;
    } else {
      assert (a + b)[1..] == a[1..] + b;
      SafelyOn(Next(s, a[0]), a[1..], s1, b, s2);
    }
  }

  lemma {:induction false} SafelyThree<T>(s: State<T>, a: Label<T>, b: Label<T>, c: Label<T>)
    requires Enabled(s, a) && !Hazard(s, a)
    requires Enabled(Next(s, a), b) && !Hazard(Next(s, a), b)
    requires Enabled(Next(Next(s, a), b), c) && !Hazard(Next(Next(s, a), b), c)
    ensures LeadsSafely(s, [a, b, c], Next(Next(Next(s, a), b), c))
  {
    var s1, s2 := Next(s, a), Next(Next(s, a), b);
    SafelyFirst(s2, c, [], Next(s2, c));
    SafelyFirst(s1, b, [c], Next(s2, c));
    SafelyFirst(s, a, [b, c], Next(s2, c));
  }

  // A producer that finds que_in empty pushes and posts without being disturbed.
  function PushAndPost<T>(z: T): seq<Label<T>> {
    [Load(z), Store, LoadAgain] + [Test, Post]
  }

  lemma {:induction false} PushAndPostLeads<T>(s: State<T>, z: T)
    requires s.producer.Outside? && s.queIn == []
    ensures LeadsSafely(s, PushAndPost(z), s.(queIn := [z], pushed := s.pushed + [z], sem := s.sem + 1))
  {
    SafelyThree(s, Load(z), Store, LoadAgain);
    var s3 := Next(Next(Next(s, Load(z)), Store), LoadAgain);
    assert s3 == s.(queIn := [z], pushed := s.pushed + [z], producer := Testing(true));
    var s5 := Next(Next(s3, Test), Post);
    SafelyFirst(Next(s3, Test), Post, [], s5);
    SafelyFirst(s3, Test, [Post], s5);
    SafelyOn(s, [Load(z), Store, LoadAgain], s3, [Test, Post], s5);
  }

  // From a store hazard's step to a value that was overtaken.
  function Overtaking<T>(z: T): seq<Label<T>> {
    [LoadAgain] + ([Test] + (PushAndPost(z) + [Wait, Exchange, Take]))
  }

  /** The first hazard, from whatever good state it occurs in: when any z is pushed next, the
      consumer that is waiting takes z although the value stored before it has not been popped;
      and that value is then left in que_in without the token that would announce it. No further
      hazard is needed for this. */
  lemma {:induction false} StoreHazardReorders<T>(s: State<T>, z: T)
    requires Inv(s) && Enabled(s, Store) && Hazard(s, Store)
    ensures CanRun(Next(s, Store), Overtaking(z)) && HazardFree(Next(s, Store), Overtaking(z))
    ensures
      var s' := After(Next(s, Store), Overtaking(z));
      && s.pushed == s.popped
      && s'.pushed == s.pushed + [s.producer.t, z] && s'.popped == s.popped + [z]
      && s'.queIn == [s.producer.t] && Tokens(s') == 0
  {
    var y := s.producer.t;
    var s1 := Next(s, Store);
    var s3 := Next(Next(s1, LoadAgain), Test);
    assert s3 == s.(queOut := [y], pushed := s.pushed + [y], producer := Outside);
    PushAndPostLeads(s3, z);
    var s8 := s3.(queIn := [z], pushed := s3.pushed + [z], sem := s3.sem + 1);
    SafelyThree(s8, Wait, Exchange, Take);
    var s11 := Next(Next(Next(s8, Wait), Exchange), Take);
    SafelyOn(s3, PushAndPost(z), s8, [Wait, Exchange, Take], s11);
    SafelyFirst(Next(s1, LoadAgain), Test, PushAndPost(z) + [Wait, Exchange, Take], s11);
    SafelyFirst(s1, LoadAgain, [Test] + (PushAndPost(z) + [Wait, Exchange, Take]), s11);
    assert s.popped + [] + [] == s.popped;
  }

  // From a test hazard's step to the front of an empty queue; a consumer that is away comes first.
  function Emptying<T>(away: bool): seq<Label<T>> {
    [Post] + ((if away then [Check, Take] else [Take]) + ([Check, Wait, Exchange] + [Take]))
  }

  /** The second hazard, from whatever good state it occurs in: the token posted for an empty
      que_in lets the consumer exchange in an empty queue and take its front. */
  lemma {:induction false} TestHazardUndefined<T>(s: State<T>)
    requires Inv(s) && Enabled(s, Test) && Hazard(s, Test)
    ensures
      var s1, run := Next(s, Test), Emptying(s.consumer.Away?);
      CanRun(s1, run) && HazardFree(s1, run) && After(s1, run).undefined
  {
    var away, s2 := s.consumer.Away?, Next(Next(s, Test), Post);
    var s4 := if away then Next(Next(s2, Check), Take) else Next(s2, Take);
    assert s4.queIn == [] && s4.queOut == [] && s4.sem == 1 && s4.consumer == Away && s4.producer == Outside;
    SafelyThree(s4, Check, Wait, Exchange);
    var s7 := Next(Next(Next(s4, Check), Wait), Exchange);
    var end := Next(s7, Take);
    SafelyFirst(s7, Take, [], end);
    SafelyOn(s4, [Check, Wait, Exchange], s7, [Take], end);
    var rest: seq<Label<T>> := [Check, Wait, Exchange] + [Take];
    if away {
      SafelyFirst(Next(s2, Check), Take, [], s4);
      SafelyFirst(s2, Check, [Take], s4);
      SafelyOn(s2, [Check, Take], s4, rest, end);
    } else {
      SafelyFirst(s2, Take, [], s4);
      SafelyOn(s2, [Take], s4, rest, end);
    }
    SafelyFirst(Next(s, Test), Post, (if away then [Check, Take] else [Take]) + rest, end);
  }

  // What the queue promises: first in, first out, one token exactly while que_in holds something,
  // and no front of an empty queue.
  ghost predicate Promised<T>(s: State<T>) {
    && s.pushed == s.popped + s.queOut + s.queIn
    && Tokens(s) == One(s.queIn != [])
    && !s.undefined
  }

  /** The hazards are exactly the steps after which the queue's promise fails of itself: after a
      step from a good state, every run without a further hazard keeps order, conservation, the
      one token and defined behaviour, if and only if the step is no hazard. */
  lemma {:induction false} HazardExactly<T(!new)>(s: State<T>, l: Label<T>)
    requires Inv(s) && Enabled(s, l)
    ensures
      !Hazard(s, l) <==>
      forall run: seq<Label<T>> ::
        CanRun(Next(s, l), run) && HazardFree(Next(s, l), run) ==> Promised(After(Next(s, l), run))
  {
    var s1 := Next(s, l);
    if !Hazard(s, l) {
      StepExactly(s, l);
      forall run: seq<Label<T>> | CanRun(s1, run) && HazardFree(s1, run) ensures Promised(After(s1, run)) {
        RunsKeepInv(s1, run);
      }
    } else if l.Store? {
      StoreHazardReorders(s, s.producer.t);
      assert !Promised(After(s1, Overtaking(s.producer.t)));
    } else {
      TestHazardUndefined(s);
      assert !Promised(After(s1, Emptying(s.consumer.Away?)));
    }
  }

  // One value pushed, and a consumer that has taken its token.
  function Announced<T>(x: T): seq<Label<T>> {
    PushAndPost(x) + ([Check] + [Wait])
  }

  function AnnouncedState<T>(x: T): State<T> {
    State([x], [], 0, Outside, Woken, [x], [], false)
  }

  lemma {:induction false} AnnouncedLeads<T>(x: T)
    ensures Leads(Init(), Announced(x), AnnouncedState(x))
  {
    PushAndPostLeads(Init(), x);
    var s: State<T> := State([x], [], 1, Outside, Away, [x], [], false);
    LeadsFirst(Next(s, Check), Wait, [], AnnouncedState(x));
    LeadsFirst(s, Check, [Wait], AnnouncedState(x));
    LeadsOn(Init(), PushAndPost(x), s, [Check] + [Wait], AnnouncedState(x));
  }

  /** Both hazards occur: the queue is not first in, first out when an exchange falls between a
      producer's reading of que_in and its push. Here y is pushed before z but z is popped. */
  lemma {:induction false} OvertakingHappens<T>(x: T, y: T, z: T)
    ensures
      var run := Announced(x) + ([Load(y), Exchange, Take] + ([Check] + ([Store] + Overtaking(z))));
      && CanRun(Init(), run)
      && After(Init(), run).pushed == [x, y, z] && After(Init(), run).popped == [x, z]
  {
    AnnouncedLeads(x);
    var s := AnnouncedState(x);
    LeadsThree(s, Load(y), Exchange, Take);
    var s3 := Next(Next(Next(s, Load(y)), Exchange), Take);
    assert s3 == State([], [], 0, Loaded(y, false), Away, [x], [x], false);
    var s4 := Next(s3, Check);
    StoreHazardReorders(s4, z);
    var end := After(Next(s4, Store), Overtaking(z));
    LeadsFirst(s4, Store, Overtaking(z), end);
    LeadsFirst(s3, Check, [Store] + Overtaking(z), end);
    LeadsOn(s, [Load(y), Exchange, Take], s3, [Check] + ([Store] + Overtaking(z)), end);
    LeadsOn(Init(), Announced(x), s, [Load(y), Exchange, Take] + ([Check] + ([Store] + Overtaking(z))), end);
  }

  /** And when it falls between the reading and the size test, the front of an empty queue is taken. */
  lemma {:induction false} EmptyFrontHappens<T>(x: T, y: T)
    ensures
      var run := Announced(x) + ([Load(y), Store, LoadAgain] + ([Exchange] + ([Take] + ([Test] + Emptying(true)))));
      CanRun(Init(), run) && After(Init(), run).undefined
  {
    AnnouncedLeads(x);
    var s := AnnouncedState(x);
    LeadsThree(s, Load(y), Store, LoadAgain);
    var s3 := Next(Next(Next(s, Load(y)), Store), LoadAgain);
    assert [x] + [y] == [x, y];
    assert s3 == State([x, y], [], 0, Testing(true), Woken, [x, y], [], false);
    var s5 := Next(Next(s3, Exchange), Take);
    assert s5.queOut == [y];
    assert s5 == State([], [y], 0, Testing(false), Away, [x, y], [x], false);
    TestHazardUndefined(s5);
    var end := After(Next(s5, Test), Emptying(true));
    var rest: seq<Label<T>> := [Test] + Emptying(true);
    LeadsFirst(s5, Test, Emptying(true), end);
    LeadsFirst(Next(s3, Exchange), Take, rest, end);
    LeadsFirst(s3, Exchange, [Take] + rest, end);
    LeadsOn(s, [Load(y), Store, LoadAgain], s3, [Exchange] + ([Take] + rest), end);
    LeadsOn(Init(), Announced(x), s, [Load(y), Store, LoadAgain] + ([Exchange] + ([Take] + rest)), end);
  }

  // ----- Push and Pop as code -----

  // The steps of a Pop that no other thread disturbs.
  function PopSteps<T>(s: State<T>): seq<Label<T>> {
    if s.queOut != [] then [Check] + [Take]
    else if s.sem > 0 then [Check] + [Wait, Exchange, Take]
    else [Check] + [TimeOut]
  }

  function AfterPop<T>(s: State<T>): State<T>
    requires Inv(s)
  {
    if s.queOut != [] then s.(queOut := s.queOut[1..], popped := s.popped + [s.queOut[0]])
    else if s.sem > 0 then
      s.(queIn := [], queOut := s.queIn[1..], sem := s.sem - 1,
         popped := s.popped + [s.queIn[0]], producer := Turned(s.producer))
    else s
  }

  lemma {:induction false} PopLeads<T>(s: State<T>)
    requires Inv(s) && s.consumer.Away? && s.producer.Outside?
    ensures Leads(s, PopSteps(s), AfterPop(s))
  {
    var s1 := Next(s, Check);
    if s.queOut != [] {
      LeadsFirst(s1, Take, [], Next(s1, Take));
      LeadsFirst(s, Check, [Take], Next(s1, Take));
    } else if s.sem > 0 {
      LeadsThree(s1, Wait, Exchange, Take);
      LeadsFirst(s, Check, [Wait, Exchange, Take], Next(Next(Next(s1, Wait), Exchange), Take));
    } else {
      LeadsFirst(s1, TimeOut, [], s);
      LeadsFirst(s, Check, [TimeOut], s);
    }
  }

  lemma {:induction false} PopKeepsInv<T>(s: State<T>)
    requires Inv(s) && s.consumer.Away? && s.producer.Outside?
    ensures Inv(AfterPop(s))
  {
    if s.queOut != [] {
      assert s.popped + [s.queOut[0]] + s.queOut[1..] == s.popped + s.queOut;
    } else if s.sem > 0 {
      assert s.popped + [s.queIn[0]] + s.queIn[1..] + [] == s.popped + [] + s.queIn;
    }
  }

  // Both methods below run without another thread in between; what they do to the fields is what
  // the named steps do to the state.
  class MsgQueue<T> {
    var queIn: seq<T>
    var queOut: seq<T>
    var sem: nat
    ghost var pushed: seq<T>
    ghost var popped: seq<T>

    constructor ()
      ensures View() == Init()
    {
      queIn, queOut, sem := [], [], 0;
      pushed, popped := [], [];
    }

    ghost function View(): State<T>
      reads this
    {
      State(queIn, queOut, sem, Outside, Away, pushed, popped, false)
    }

    method Push(t: T)
      modifies this
      ensures queIn == old(queIn) + [t] && queOut == old(queOut)
      ensures Leads(old(View()),
        [Load(t), Store, LoadAgain] + (if old(queIn) == [] then [Test, Post] else [Test]), View())
    {
      ghost var s := View();
      queIn := queIn + [t];
      pushed := pushed + [t];
      if |queIn| == 1 {
        sem := sem + 1;
      }
      LeadsThree(s, Load(t), Store, LoadAgain);
      ghost var s3 := Next(Next(Next(s, Load(t)), Store), LoadAgain);
      if s.queIn == [] {
        LeadsFirst(Next(s3, Test), Post, [], View());
        LeadsFirst(s3, Test, [Post], View());
        LeadsOn(s, [Load(t), Store, LoadAgain], s3, [Test, Post], View());
      } else {
        LeadsFirst(s3, Test, [], View());
        LeadsOn(s, [Load(t), Store, LoadAgain], s3, [Test], View());
      }
    }

    // Without another thread the wait succeeds at once or times out.
    method Pop() returns (ret: Code, t: Option<T>)
      requires Inv(View())
      modifies this
      ensures Inv(View())
      ensures ret == ZOK <==> old(queOut) + old(queIn) != []
      ensures ret == ZOK ==>
        t == Some((old(queOut) + old(queIn))[0]) && queOut + queIn == (old(queOut) + old(queIn))[1..]
      ensures ret != ZOK ==> ret == ZTIMEOUT && t == None && View() == old(View())
      ensures Leads(old(View()), PopSteps(old(View())), View())
    {
      PopLeads(View());
      PopKeepsInv(View());
      ret, t := ZOK, None;
      if queOut == [] {
        if sem > 0 {
          sem := sem - 1;
          queIn, queOut := queOut, queIn;
        } else {
          ret := ZTIMEOUT;
        }
      }
      if ret == ZOK {
        t := Some(queOut[0]);
        popped := popped + [queOut[0]];
        queOut := queOut[1..];
      }
    }
  }
}
