/** The live feed: bounded per-subscriber queues with drop counters and station scoping. */
module LiveFeed {
  import opened Wrappers

  /** A broadcast frame; `station` is None when it is about no unit in particular. */
  datatype Message = Message(id: int, station: Option<string>)

  datatype StationScope = StationScope(allStations: bool, station: Option<string>) {
    /** Without a station a record is outside every scope but the full one. */
    predicate Permits(stationId: Option<string>) {
      allStations || (stationId.Some? && stationId == station)
    }
  }

  const CAPACITY: nat := 64

  /** What the socket sends: the frame, and how many frames were missed before it. */
  datatype Frame = Frame(message: Message, droppedFrames: nat)

  datatype QueueState = QueueState(queue: seq<Message>, dropped: nat)

  const EMPTY := QueueState([], 0)

  predicate Eligible(scope: StationScope, m: Message) {
    m.station.None? || scope.Permits(m.station)
  }

  function OfferStep(scope: StationScope, s: QueueState, m: Message): QueueState {
    if !Eligible(scope, m) then s
    else if |s.queue| < CAPACITY then s.(queue := s.queue + [m])
    else s.(dropped := s.dropped + 1)
  }

  /** One turn of the socket loop: take a frame if there is one and announce the drops. */
  function ReceiveStep(s: QueueState): (QueueState, Option<Frame>) {
    if s.queue == [] then (s, None)
    else (QueueState(s.queue[1..], 0), Some(Frame(s.queue[0], s.dropped)))
  }

  class Subscriber {
    const scope: StationScope
    var queue: seq<Message>
    var dropped: nat

    function Now(): QueueState
      reads this
    {
      QueueState(queue, dropped)
    }

    constructor (scope: StationScope)
      ensures this.scope == scope && Now() == EMPTY
    {
      this.scope := scope;
      queue, dropped := [], 0;
    }

    /** `put_nowait`: false when the queue is full. */
    method PutNoWait(m: Message) returns (ok: bool)
      modifies this`queue
      ensures ok == (|old(queue)| < CAPACITY)
      ensures queue == if ok then old(queue) + [m] else old(queue)
    {
      ok := |queue| < CAPACITY;
      if ok { queue := queue + [m]; }
    }

    method Receive() returns (f: Option<Frame>)
      modifies this
      ensures (Now(), f) == ReceiveStep(old(Now()))
    {
      if queue == [] { return None; }
      var message := queue[0];
      queue := queue[1..];
      f := Some(Frame(message, 0));
      if dropped > 0 {
        f := Some(Frame(message, dropped));
        dropped := 0;
      }
    }
  }

  class Feed {
    var subscribers: set<Subscriber>

    constructor ()
      ensures subscribers == {}
    {
      subscribers := {};
    }

    /** Offer the message to each subscriber in scope; the set has no order. */
    method Broadcast(m: Message)
      modifies subscribers
      ensures subscribers == old(subscribers)
      ensures forall s :: s in subscribers ==> s.Now() == OfferStep(s.scope, old(s.Now()), m)
    {
      var todo := subscribers;
      while todo != {}
        invariant todo <= subscribers == old(subscribers)
        invariant forall s :: s in subscribers ==>
                    s.Now() == if s in todo then old(s.Now()) else OfferStep(s.scope, old(s.Now()), m)
        decreases |todo|
      {
        var sub :| sub in todo;
        todo := todo - {sub};
        if m.station.Some? && !sub.scope.Permits(m.station) { continue; }
        var ok := sub.PutNoWait(m);
        if !ok { sub.dropped := sub.dropped + 1; }
      }
    }
  }

  // ------------------------------------------------------------------
  // Runs of broadcasts and receives, as one subscriber sees them
  // ------------------------------------------------------------------

  datatype Event = Broadcast(message: Message) | Receive

  function Run(scope: StationScope, es: seq<Event>): QueueState {
    if es == [] then EMPTY
    else
      var s := Run(scope, es[..|es| - 1]);
      match es[|es| - 1]
      case Broadcast(m) => OfferStep(scope, s, m)
      case Receive => ReceiveStep(s).0
  }

  /** Frames sent, in order. */
  function Sent(scope: StationScope, es: seq<Event>): seq<Frame> {
    if es == [] then []
    else
      var s := Run(scope, es[..|es| - 1]);
      Sent(scope, es[..|es| - 1])
      + if es[|es| - 1].Receive? && ReceiveStep(s).1.Some? then [ReceiveStep(s).1.value] else []
  }

  /** Messages the subscriber was entitled to, in broadcast order. */
  function Entitled(scope: StationScope, es: seq<Event>): seq<Message> {
    if es == [] then []
    else Entitled(scope, es[..|es| - 1])
         + if es[|es| - 1].Broadcast? && Eligible(scope, es[|es| - 1].message) then [es[|es| - 1].message] else []
  }

  function Messages(fs: seq<Frame>): (ms: seq<Message>)
    ensures |ms| == |fs|
  {
    if fs == [] then [] else Messages(fs[..|fs| - 1]) + [fs[|fs| - 1].message]
  }

  function Announced(fs: seq<Frame>): nat {
    if fs == [] then 0 else Announced(fs[..|fs| - 1]) + fs[|fs| - 1].droppedFrames
  }

  /** `a` is `b` with some elements left out. */
  ghost predicate Subsequence(a: seq<Message>, b: seq<Message>) {
    a == [] || (b != []
                && (Subsequence(a, b[..|b| - 1])
                    || (a[|a| - 1] == b[|b| - 1] && Subsequence(a[..|a| - 1], b[..|b| - 1]))))
  }

  lemma SubsequenceSkip(a: seq<Message>, b: seq<Message>, m: Message)
    requires Subsequence(a, b)
    ensures Subsequence(a, b + [m])
  {
    assert (b + [m])[..|b|] == b;
  }

  lemma SubsequenceTake(a: seq<Message>, b: seq<Message>, m: Message)
    requires Subsequence(a, b)
    ensures Subsequence(a + [m], b + [m])
  {
    assert (b + [m])[..|b|] == b && (a + [m])[..|a|] == a;
  }

  /** Everything sent plus everything still queued. */
  function Kept(scope: StationScope, es: seq<Event>): seq<Message> {
    Messages(Sent(scope, es)) + Run(scope, es).queue
  }

  lemma Snoc(fs: seq<Frame>, f: Frame)
    ensures Announced(fs + [f]) == Announced(fs) + f.droppedFrames
    ensures Messages(fs + [f]) == Messages(fs) + [f.message]
  {
    assert (fs + [f])[..|fs|] == fs;
  }

  /** What the last event of a run sends. */
  lemma SentAfter(scope: StationScope, es: seq<Event>)
    requires es != []
    ensures
      var before, prefix := Run(scope, es[..|es| - 1]), Sent(scope, es[..|es| - 1]);
      Sent(scope, es) == if es[|es| - 1].Receive? && before.queue != []
                         then prefix + [Frame(before.queue[0], before.dropped)] else prefix
  {
  }

  /** Conservation: every message the subscriber was entitled to has been sent, is queued, or
    * was dropped, and each drop has been announced or will be with the next frame. */
  lemma {:induction false} Conservation(scope: StationScope, es: seq<Event>)
    ensures |Entitled(scope, es)|
            == |Run(scope, es).queue| + |Sent(scope, es)| + Announced(Sent(scope, es)) + Run(scope, es).dropped
    ensures |Run(scope, es).queue| <= 64
  {
    if es == [] {
    } else {
      hide Eligible;
      var prefix := es[..|es| - 1];
      Conservation(scope, prefix);
      SentAfter(scope, es);
      var before := Run(scope, prefix);
      if es[|es| - 1].Receive? && before.queue != [] {
        Snoc(Sent(scope, prefix), Frame(before.queue[0], before.dropped));
      }
    }
  }

  /** Order: what was sent and is queued, in that order, is the broadcast order with drops left out. */
  lemma {:induction false} OrderKept(scope: StationScope, es: seq<Event>)
    ensures Subsequence(Kept(scope, es), Entitled(scope, es))
  {
    if es == [] {
    } else {
      hide Eligible, Subsequence;
      var k := |es| - 1;
      OrderKept(scope, es[..k]);
      var kept, entitled := Kept(scope, es[..k]), Entitled(scope, es[..k]);
      match es[k] {
        case Broadcast(m) =>
          SubsequenceSkip(kept, entitled, m);
          SubsequenceTake(kept, entitled, m);
          KeptAfterBroadcast(scope, es);
          assert Entitled(scope, es) == if Eligible(scope, m) then entitled + [m] else entitled;
        case Receive =>
          KeptAfterReceive(scope, es);
          assert Entitled(scope, es) == entitled;
      }
    }
  }

  lemma KeptAfterBroadcast(scope: StationScope, es: seq<Event>)
    requires es != [] && es[|es| - 1].Broadcast?
    ensures
      var k, m := |es| - 1, es[|es| - 1].message;
      Kept(scope, es) == if Eligible(scope, m) && |Run(scope, es[..k]).queue| < CAPACITY
                         then Kept(scope, es[..k]) + [m] else Kept(scope, es[..k])
  {
    SentAfter(scope, es);
  }

  lemma KeptAfterReceive(scope: StationScope, es: seq<Event>)
    requires es != [] && es[|es| - 1].Receive?
    ensures Kept(scope, es) == Kept(scope, es[..|es| - 1])
  {
    SentAfter(scope, es);
    var before, sent := Run(scope, es[..|es| - 1]), Sent(scope, es[..|es| - 1]);
    if before.queue != [] {
      Snoc(sent, Frame(before.queue[0], before.dropped));
      assert before.queue == [before.queue[0]] + before.queue[1..];
    }
  }

  lemma {:induction false} SubsequenceMembers(a: seq<Message>, b: seq<Message>)
    requires Subsequence(a, b)
    ensures forall m :: m in a ==> m in b
  {
    if a == [] {
    } else {
      if Subsequence(a, b[..|b| - 1]) {
        SubsequenceMembers(a, b[..|b| - 1]);
      } else {
        SubsequenceMembers(a[..|a| - 1], b[..|b| - 1]);
        forall m | m in a ensures m in b {
          if m != a[|a| - 1] { assert m in a[..|a| - 1]; }
        }
      }
    }
  }

  lemma {:induction false} EntitledEligible(scope: StationScope, es: seq<Event>)
    ensures forall m :: m in Entitled(scope, es) ==> Eligible(scope, m)
  {
    if es == [] {
    } else {
      EntitledEligible(scope, es[..|es| - 1]);
    }
  }

  lemma {:induction false} MessagesMembers(fs: seq<Frame>)
    ensures forall f :: f in fs ==> f.message in Messages(fs)
  {
    if fs == [] {
    } else {
      MessagesMembers(fs[..|fs| - 1]);
      forall f | f in fs ensures f.message in Messages(fs) {
        if f != fs[|fs| - 1] { assert f in fs[..|fs| - 1]; }
      }
    }
  }

  /** What a scope lets through: a frame that was broadcast is offered exactly when it is about no unit,
    * the subscriber sees every station, or the unit is at the subscriber's own. */
  lemma {:induction false} EntitledIff(scope: StationScope, es: seq<Event>, m: Message)
    ensures m in Entitled(scope, es)
            <==> Broadcast(m) in es && (m.station.None? || scope.allStations || scope.station == m.station)
  {
    if es == [] {
    } else {
      var k := |es| - 1;
      assert es == es[..k] + [es[k]];
      EntitledIff(scope, es[..k], m);
    }
  }

  /** A frame is dropped exactly when the subscriber is entitled to it and 64 are waiting; otherwise an
    * entitled frame joins the end of the queue. */
  lemma DroppedIff(scope: StationScope, es: seq<Event>, m: Message)
    ensures
      var before, after := Run(scope, es), Run(scope, es + [Broadcast(m)]);
      var entitled := m.station.None? || scope.allStations || scope.station == m.station;
      && after.dropped == before.dropped + (if entitled && |before.queue| == 64 then 1 else 0)
      && after.queue == (if entitled && |before.queue| < 64 then before.queue + [m] else before.queue)
  {
    Conservation(scope, es);
    assert (es + [Broadcast(m)])[..|es|] == es;
  }

  /** Scoping: no frame about another station's unit is ever sent to a scoped subscriber. */
  lemma NothingOutsideScope(scope: StationScope, es: seq<Event>, f: Frame)
    requires f in Sent(scope, es) && f.message.station.Some? && !scope.allStations
    ensures scope.station == f.message.station
  {
    OrderKept(scope, es);
    SubsequenceMembers(Kept(scope, es), Entitled(scope, es));
    EntitledEligible(scope, es);
    MessagesMembers(Sent(scope, es));
    assert f.message in Kept(scope, es);
  }

  /** Drops are never silent: the first frame sent after drops announces all of them, and while
    * anything is undelivered the next receive does send a frame. */
  lemma DropsAnnouncedNext(scope: StationScope, es: seq<Event>)
    requires Run(scope, es).dropped > 0
    ensures Run(scope, es).queue != []
    ensures
      var after := es + [Receive];
      && Run(scope, after).dropped == 0
      && Sent(scope, after) == Sent(scope, es) + [Frame(Run(scope, es).queue[0], Run(scope, es).dropped)]
  {
    DroppedMeansQueued(scope, es);
    assert (es + [Receive])[..|es|] == es;
  }

  lemma {:induction false} DroppedMeansQueued(scope: StationScope, es: seq<Event>)
    ensures Run(scope, es).dropped > 0 ==> Run(scope, es).queue != []
  {
    if es == [] {
    } else {
      DroppedMeansQueued(scope, es[..|es| - 1]);
    }
  }
}
