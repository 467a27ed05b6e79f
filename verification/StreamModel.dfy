/**
 * A Stream on top of the broker: a consumer loop takes a message from its
 * channel, calls the handler and forwards the result into a second bounded
 * channel, from which the test collects.
 */
module StreamModel {
  import opened Wrappers
  import opened BrokerModel

  const HANDLED := 16

  /** The handler's error, None for success. */
  type Outcome = Option<string>

  datatype Consumer = Ready | Handling | Holding(result: Outcome) | Stopped

  /** `handlings` is the history of handler calls: the message and the result. */
  datatype StreamState = StreamState(
    b: State,
    chan: nat,
    consumer: Consumer,
    handled: seq<Outcome>,
    collected: seq<Outcome>,
    handlings: seq<(Bytes, Outcome)>)

  datatype StreamAction =
    | OfBroker(a: Action)
    | Take
    | HandlerReturns(result: Outcome)
    | Forward
    | Collect
    | Cancel

  predicate SEnabled(s: StreamState, a: StreamAction) {
    match a
    case OfBroker(x) => Enabled(s.b, x) && x != Receive(s.chan)
    case Take => s.consumer.Ready? && Enabled(s.b, Receive(s.chan))
    case HandlerReturns(_) => s.consumer.Handling? && s.chan < |s.b.chans| && s.b.chans[s.chan].received != []
    case Forward => s.consumer.Holding? && |s.handled| < HANDLED
    case Collect => s.handled != []
    case Cancel => s.consumer.Ready?
  }

  function SStep(s: StreamState, a: StreamAction): StreamState
    requires SEnabled(s, a)
  {
    match a
    case OfBroker(x) => s.(b := Step(s.b, x))
    case Take => s.(b := Step(s.b, Receive(s.chan)), consumer := Handling)
    case HandlerReturns(r) =>
      var received := s.b.chans[s.chan].received;
      s.(consumer := Holding(r), handlings := s.handlings + [(received[|received| - 1], r)])
    case Forward => s.(handled := s.handled + [s.consumer.result], consumer := Ready)
    case Collect => s.(handled := s.handled[1..], collected := s.collected + [s.handled[0]])
    case Cancel => s.(consumer := Stopped)
  }

  predicate SValidRun(s: StreamState, run: seq<StreamAction>)
    decreases |run|
  {
    run == [] || (SEnabled(s, run[0]) && SValidRun(SStep(s, run[0]), run[1..]))
  }

  function SExec(s: StreamState, run: seq<StreamAction>): StreamState
    requires SValidRun(s, run)
    decreases |run|
  {
    if run == [] then s else SExec(SStep(s, run[0]), run[1..])
  }

  /** NewStream subscribes at once, on a broker that has been used before. */
  function NewStream(b: State, topic: string): StreamState {
    StreamState(Step(b, Subscribe(topic)), |b.chans|, Ready, [], [], [])
  }

  // --------------------------------------------------------------- invariant

  function Messages(h: seq<(Bytes, Outcome)>): seq<Bytes> {
    seq(|h|, i requires 0 <= i < |h| => h[i].0)
  }

  function Outcomes(h: seq<(Bytes, Outcome)>): seq<Outcome> {
    seq(|h|, i requires 0 <= i < |h| => h[i].1)
  }

  function InHand(c: Consumer): seq<Outcome> {
    if c.Holding? then [c.result] else []
  }

  ghost predicate SInv(s: StreamState) {
    && Inv(s.b)
    && s.chan < |s.b.chans|
    && |s.handled| <= HANDLED
    && s.collected + s.handled + InHand(s.consumer) == Outcomes(s.handlings)
    && var received := s.b.chans[s.chan].received;
       if s.consumer.Handling? then received != [] && Messages(s.handlings) == received[..|received| - 1]
       else Messages(s.handlings) == received
  }

  lemma HandlerInv(s: StreamState, r: Outcome)
    requires SEnabled(s, HandlerReturns(r)) && SInv(s)
    ensures SInv(SStep(s, HandlerReturns(r)))
  {
    var received := s.b.chans[s.chan].received;
    assert received == received[..|received| - 1] + [received[|received| - 1]];
    assert Outcomes(SStep(s, HandlerReturns(r)).handlings) == Outcomes(s.handlings) + [r];
    assert s.collected + s.handled + [r] == s.collected + s.handled + InHand(s.consumer) + [r];
  }

  lemma SStepInv(s: StreamState, a: StreamAction)
    requires SEnabled(s, a) && SInv(s)
    ensures SInv(SStep(s, a))
  {
    match a
    case OfBroker(x) => StepInv(s.b, x);
    case Take => StepInv(s.b, Receive(s.chan));
    case HandlerReturns(r) => HandlerInv(s, r);
    case Forward =>
    case Collect => assert s.handled == [s.handled[0]] + s.handled[1..];
    case Cancel =>
  }

  lemma {:induction false} SRunInv(s: StreamState, run: seq<StreamAction>)
    requires SValidRun(s, run) && SInv(s)
    ensures SInv(SExec(s, run)) && SExec(s, run).chan == s.chan
    decreases |run|
  {
    if run != [] {
      SStepInv(s, run[0]);
      SRunInv(SStep(s, run[0]), run[1..]);
    }
  }

  // ---------------------------------------------------------------- capacity

  /** Publishes on a topic that have returned. */
  function Completed(pubs: seq<Pub>, topic: string): nat {
    if pubs == [] then 0
    else Completed(pubs[..|pubs| - 1], topic)
         + (var p := pubs[|pubs| - 1]; if p.topic == topic && p.remaining == [] then 1 else 0)
  }

  /** A returned publish owes nothing, so completions and debts share the matching publishes. */
  lemma {:induction false} CompletedOweNothing(pubs: seq<Pub>, topic: string, c: nat)
    requires forall p | 0 <= p < |pubs| :: c in pubs[p].remaining ==> pubs[p].topic == topic
    ensures Completed(pubs, topic) + |InFlight(pubs, c)| <= |Matching(pubs, topic)|
    decreases |pubs|
  {
    if pubs != [] {
      CompletedOweNothing(pubs[..|pubs| - 1], topic, c);
    }
  }

  /** Publishes on the stream's topic, started after it subscribed, that have returned. */
  function CompletedPublishes(s: StreamState): nat
    requires s.chan < |s.b.chans| && s.b.chans[s.chan].since <= |s.b.pubs|
  {
    Completed(Seen(s.b, s.chan), s.b.chans[s.chan].topic)
  }

  lemma Capacity(s: StreamState)
    requires SInv(s)
    ensures s.b.chans[s.chan].since <= |s.b.pubs|
    ensures CompletedPublishes(s) <= |s.collected| + BUFFER + 1 + HANDLED
  {
    var c := s.chan;
    var ch := s.b.chans[c];
    assert ChanOk(s.b, c);
    forall p | 0 <= p < |Seen(s.b, c)|
      ensures c in Seen(s.b, c)[p].remaining ==> Seen(s.b, c)[p].topic == ch.topic
    {
      assert PubOk(s.b, p + ch.since);
    }
    CompletedOweNothing(Seen(s.b, c), ch.topic, c);
    assert |multiset(ch.received) + multiset(ch.buf) + InFlight(Seen(s.b, c), c)|
        == |multiset(Matching(Seen(s.b, c), ch.topic))|;
    assert |Messages(s.handlings)| == |Outcomes(s.handlings)|;
  }

  /**
   * Returned publishes never run ahead of the collected results by more than
   * the channel, the message in hand and the handled channel can hold.
   */
  lemma PipelineCapacity(before: seq<Action>, topic: string, run: seq<StreamAction>)
    requires ValidRun(EMPTY, before) && SValidRun(NewStream(Exec(EMPTY, before), topic), run)
    ensures var s := SExec(NewStream(Exec(EMPTY, before), topic), run);
            && s.chan < |s.b.chans| && s.b.chans[s.chan].since <= |s.b.pubs|
            && CompletedPublishes(s) <= |s.collected| + 100 + 1 + 16
  {
    RunInv(EMPTY, before);
    StepInv(Exec(EMPTY, before), Subscribe(topic));
    SRunInv(NewStream(Exec(EMPTY, before), topic), run);
    Capacity(SExec(NewStream(Exec(EMPTY, before), topic), run));
  }

  // ---------------------------------------------------- the bound is reached

  lemma {:induction false} SRunConcat(s: StreamState, r1: seq<StreamAction>, r2: seq<StreamAction>)
    requires SValidRun(s, r1) && SValidRun(SExec(s, r1), r2)
    ensures SValidRun(s, r1 + r2) && SExec(s, r1 + r2) == SExec(SExec(s, r1), r2)
    decreases |r1|
  {
    if r1 == [] {
      assert r1 + r2 == r2;
    } else {
      SRunConcat(SStep(s, r1[0]), r1[1..], r2);
      assert (r1 + r2)[1..] == r1[1..] + r2;
    }
  }

  ghost predicate SLeads(run: seq<StreamAction>, s: StreamState) {
    SValidRun(NewStream(EMPTY, "t"), run) && SExec(NewStream(EMPTY, "t"), run) == s
  }

  lemma SGo(run: seq<StreamAction>, s: StreamState, a: StreamAction) returns (run': seq<StreamAction>, s': StreamState)
    requires SLeads(run, s) && SEnabled(s, a)
    ensures SLeads(run', s') && s' == SStep(s, a)
  {
    assert [a][1..] == [];
    SRunConcat(NewStream(EMPTY, "t"), run, [a]);
    run', s' := run + [a], SStep(s, a);
  }

  /** One subscriber, n publishes all returned, nothing collected. */
  ghost predicate Filled(s: StreamState, n: nat, buffered: nat, consumer: Consumer, handled: nat) {
    && s.chan == 0 && |s.b.chans| == 1 && s.b.chans[0].topic == "t" && s.b.chans[0].since == 0
    && |s.b.chans[0].buf| == buffered && |s.handled| == handled && s.consumer == consumer
    && s.collected == []
    && (forall p | 0 <= p < |s.b.pubs| :: s.b.pubs[p].remaining == [])
    && Completed(s.b.pubs, "t") == n
  }

  lemma CompletedAppend(pubs: seq<Pub>, pub: Pub, topic: string)
    ensures Completed(pubs + [pub], topic) ==
              Completed(pubs, topic) + (if pub.topic == topic && pub.remaining == [] then 1 else 0)
  {
    assert (pubs + [pub])[..|pubs|] == pubs;
  }

  lemma PublishOne(run: seq<StreamAction>, s: StreamState, n: nat, buffered: nat, consumer: Consumer, handled: nat)
    returns (run': seq<StreamAction>, s': StreamState)
    requires SLeads(run, s) && Filled(s, n, buffered, consumer, handled) && buffered < BUFFER
    ensures SLeads(run', s') && Filled(s', n + 1, buffered + 1, consumer, handled)
    ensures s'.b.chans[0].received == s.b.chans[0].received
  {
    var p := |s.b.pubs|;
    assert s.b.chans[..0] == [] && SubsOf(s.b.chans, "t") == [0];
    run', s' := SGo(run, s, OfBroker(Snapshot("t", [])));
    assert s'.b.pubs == s.b.pubs + [Pub("t", [], [0])];
    run', s' := SGo(run', s', OfBroker(Send(p)));
    assert [0 as nat][1..] == [];
    assert s'.b.pubs == s.b.pubs + [Pub("t", [], [])];
    CompletedAppend(s.b.pubs, Pub("t", [], []), "t");
  }

  lemma HandleOne(run: seq<StreamAction>, s: StreamState, n: nat, handled: nat)
    returns (run': seq<StreamAction>, s': StreamState)
    requires SLeads(run, s) && Filled(s, n, 0, Ready, handled)
    ensures SLeads(run', s') && Filled(s', n + 1, 0, Holding(None), handled)
  {
    run', s' := PublishOne(run, s, n, 0, Ready, handled);
    run', s' := SGo(run', s', Take);
    run', s' := SGo(run', s', HandlerReturns(None));
  }

  lemma {:induction false} FillHandled(k: nat) returns (run: seq<StreamAction>, s: StreamState)
    requires k <= HANDLED
    ensures SLeads(run, s) && Filled(s, k, 0, Ready, k)
  {
    if k == 0 {
      run, s := [], NewStream(EMPTY, "t");
    } else {
      run, s := FillHandled(k - 1);
      run, s := HandleOne(run, s, k - 1, k - 1);
      run, s := SGo(run, s, Forward);
    }
  }

  lemma {:induction false} FillBuffer(k: nat) returns (run: seq<StreamAction>, s: StreamState)
    requires k <= BUFFER
    ensures SLeads(run, s) && Filled(s, HANDLED + 1 + k, k, Holding(None), HANDLED)
  {
    if k == 0 {
      run, s := FillHandled(HANDLED);
      run, s := HandleOne(run, s, HANDLED, HANDLED);
    } else {
      run, s := FillBuffer(k - 1);
      run, s := PublishOne(run, s, HANDLED + k, k - 1, Holding(None), HANDLED);
    }
  }

  /** 117 publishes can return with nothing collected, so the bound is exact. */
  lemma CapacityReached() returns (run: seq<StreamAction>, s: StreamState)
    ensures SValidRun(NewStream(EMPTY, "t"), run) && SExec(NewStream(EMPTY, "t"), run) == s
    ensures s.collected == [] && s.chan < |s.b.chans| && s.b.chans[s.chan].since <= |s.b.pubs|
    ensures CompletedPublishes(s) == 117
  {
    run, s := FillBuffer(BUFFER);
    assert s.b.pubs[0..] == s.b.pubs;
  }

  // ------------------------------------------------------ results in order

  ghost predicate SSequentialRun(s: StreamState, run: seq<StreamAction>)
    requires SValidRun(s, run)
    decreases |run|
  {
    run != [] ==>
      && (run[0].OfBroker? && run[0].a.Snapshot? ==> forall p | 0 <= p < |s.b.pubs| :: s.b.pubs[p].remaining == [])
      && SSequentialRun(SStep(s, run[0]), run[1..])
  }

  lemma {:induction false} SRunInOrder(s: StreamState, run: seq<StreamAction>)
    requires SValidRun(s, run) && SInv(s) && InOrder(s.b) && SSequentialRun(s, run)
    ensures InOrder(SExec(s, run).b)
    decreases |run|
  {
    if run != [] {
      SStepInv(s, run[0]);
      if run[0].OfBroker? {
        StepInOrder(s.b, run[0].a);
      } else if run[0].Take? {
        StepInOrder(s.b, Receive(s.chan));
      }
      SRunInOrder(SStep(s, run[0]), run[1..]);
    }
  }

  /**
   * With one sequential publisher, on a broker that may have been used before,
   * the k-th collected result is what the handler returned for the k-th message
   * published on the topic since the stream subscribed.
   */
  lemma ResultsMatchMessages(before: seq<Action>, topic: string, run: seq<StreamAction>, k: nat)
    requires ValidRun(EMPTY, before) && SequentialRun(EMPTY, before)
    requires SValidRun(NewStream(Exec(EMPTY, before), topic), run)
    requires SSequentialRun(NewStream(Exec(EMPTY, before), topic), run)
    requires k < |SExec(NewStream(Exec(EMPTY, before), topic), run).collected|
    ensures var s := SExec(NewStream(Exec(EMPTY, before), topic), run);
            && s.chan < |s.b.chans| && s.b.chans[s.chan].since <= |s.b.pubs|
            && var published := Matching(Seen(s.b, s.chan), s.b.chans[s.chan].topic);
               && k < |published| && k < |s.handlings|
               && s.handlings[k] == (published[k], s.collected[k])
  {
    var b := Exec(EMPTY, before);
    var s0 := NewStream(b, topic);
    RunInOrder(EMPTY, before);
    StepInv(b, Subscribe(topic));
    StepInOrder(b, Subscribe(topic));
    SRunInv(s0, run);
    SRunInOrder(s0, run);
    var s := SExec(s0, run);
    assert ChanInOrder(s.b, s.chan);
    assert s.collected[k] == Outcomes(s.handlings)[k];
    assert Messages(s.handlings)[k] == s.b.chans[s.chan].received[k] == Delivered(s.b.chans[s.chan])[k];
  }
}
