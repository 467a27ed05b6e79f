/**
 * The in-memory broker with goroutines: a publish copies the subscriber list
 * under the lock and then sends outside it, one bounded channel after the
 * other, while others subscribe, publish and receive.
 */
module BrokerModel {
  import opened Wrappers

  const BUFFER := 100

  /** `since` is the number of publishes that had taken their snapshot before this subscription. */
  datatype Chan = Chan(topic: string, since: nat, buf: seq<Bytes>, received: seq<Bytes>)

  /** A publish in snapshot order; `remaining` are the channels it still has to send to. */
  datatype Pub = Pub(topic: string, data: Bytes, remaining: seq<nat>)

  datatype State = State(chans: seq<Chan>, pubs: seq<Pub>)

  datatype Action =
    | Subscribe(topic: string)
    | Snapshot(ptopic: string, data: Bytes)
    | Send(pub: nat)
    | Receive(chan: nat)

  /** byTopic[topic]: the channels of a topic in subscription order. */
  function SubsOf(chans: seq<Chan>, topic: string): seq<nat> {
    if chans == [] then []
    else SubsOf(chans[..|chans| - 1], topic)
         + (if chans[|chans| - 1].topic == topic then [|chans| - 1] else [])
  }

  predicate Enabled(s: State, a: Action) {
    match a
    case Subscribe(_) => true
    case Snapshot(_, _) => true
    case Send(p) =>
      && p < |s.pubs| && s.pubs[p].remaining != []
      && s.pubs[p].remaining[0] < |s.chans|
      && |s.chans[s.pubs[p].remaining[0]].buf| < BUFFER
    case Receive(c) => c < |s.chans| && s.chans[c].buf != []
  }

  function Step(s: State, a: Action): State
    requires Enabled(s, a)
  {
    match a
    case Subscribe(topic) => s.(chans := s.chans + [Chan(topic, |s.pubs|, [], [])])
    case Snapshot(topic, data) => s.(pubs := s.pubs + [Pub(topic, data, SubsOf(s.chans, topic))])
    case Send(p) =>
      var pub := s.pubs[p];
      var c := pub.remaining[0];
      State(s.chans[c := s.chans[c].(buf := s.chans[c].buf + [pub.data])],
            s.pubs[p := pub.(remaining := pub.remaining[1..])])
    case Receive(c) =>
      var ch := s.chans[c];
      s.(chans := s.chans[c := ch.(buf := ch.buf[1..], received := ch.received + [ch.buf[0]])])
  }

  const EMPTY := State([], [])

  predicate ValidRun(s: State, run: seq<Action>)
    decreases |run|
  {
    run == [] || (Enabled(s, run[0]) && ValidRun(Step(s, run[0]), run[1..]))
  }

  function Exec(s: State, run: seq<Action>): State
    requires ValidRun(s, run)
    decreases |run|
  {
    if run == [] then s else Exec(Step(s, run[0]), run[1..])
  }

  // -------------------------------------------------------------- accounting

  /** The data of the publishes on a topic, in order. */
  function Matching(pubs: seq<Pub>, topic: string): seq<Bytes> {
    if pubs == [] then []
    else Matching(pubs[..|pubs| - 1], topic)
         + (if pubs[|pubs| - 1].topic == topic then [pubs[|pubs| - 1].data] else [])
  }

  function Owes(pub: Pub, c: nat): multiset<Bytes> {
    if c in pub.remaining then multiset{pub.data} else multiset{}
  }

  /** What publishes in flight still have to send to a channel. */
  function InFlight(pubs: seq<Pub>, c: nat): multiset<Bytes> {
    if pubs == [] then multiset{} else InFlight(pubs[..|pubs| - 1], c) + Owes(pubs[|pubs| - 1], c)
  }

  /** The publishes whose snapshot followed the channel's subscription. */
  function Seen(s: State, c: nat): seq<Pub>
    requires c < |s.chans| && s.chans[c].since <= |s.pubs|
  {
    s.pubs[s.chans[c].since..]
  }

  ghost predicate PubOk(s: State, p: nat)
    requires p < |s.pubs|
  {
    var rem := s.pubs[p].remaining;
    && (forall i, j | 0 <= i < j < |rem| :: rem[i] < rem[j])
    && (forall c | c in rem :: c < |s.chans| && s.chans[c].topic == s.pubs[p].topic && s.chans[c].since <= p)
  }

  ghost predicate ChanOk(s: State, c: nat)
    requires c < |s.chans|
  {
    var ch := s.chans[c];
    && ch.since <= |s.pubs|
    && |ch.buf| <= BUFFER
    && multiset(ch.received) + multiset(ch.buf) + InFlight(Seen(s, c), c) == multiset(Matching(Seen(s, c), ch.topic))
  }

  ghost predicate Inv(s: State) {
    && (forall p | 0 <= p < |s.pubs| :: PubOk(s, p))
    && (forall c | 0 <= c < |s.chans| :: ChanOk(s, c))
  }

  lemma {:induction false} SubsOfSpec(chans: seq<Chan>, topic: string)
    ensures forall i, j | 0 <= i < j < |SubsOf(chans, topic)| :: SubsOf(chans, topic)[i] < SubsOf(chans, topic)[j]
    ensures forall c: nat :: c in SubsOf(chans, topic) <==> c < |chans| && chans[c].topic == topic
    decreases |chans|
  {
    if chans != [] {
      var n := |chans| - 1;
      SubsOfSpec(chans[..n], topic);
      var before := SubsOf(chans[..n], topic);
      assert forall i | 0 <= i < |before| :: before[i] in before && before[i] < n;
      forall c: nat
        ensures c in SubsOf(chans, topic) <==> c < |chans| && chans[c].topic == topic
      {
        if c < n {
          assert chans[..n][c] == chans[c];
        }
      }
    }
  }

  lemma MatchingAppend(pubs: seq<Pub>, pub: Pub, topic: string)
    ensures Matching(pubs + [pub], topic) == Matching(pubs, topic) + (if pub.topic == topic then [pub.data] else [])
  {
    assert (pubs + [pub])[..|pubs|] == pubs;
  }

  lemma InFlightAppend(pubs: seq<Pub>, pub: Pub, c: nat)
    ensures InFlight(pubs + [pub], c) == InFlight(pubs, c) + Owes(pub, c)
  {
    assert (pubs + [pub])[..|pubs|] == pubs;
  }

  lemma AddBoth<T>(a: multiset<T>, b: multiset<T>, x: multiset<T>, y: multiset<T>, rest: multiset<T>)
    requires a + x == b + y
    ensures (a + rest) + x == (b + rest) + y
  {
    assert (a + rest) + x == (a + x) + rest;
    assert (b + rest) + y == (b + y) + rest;
  }

  lemma Swap<T>(a: multiset<T>, x: multiset<T>, y: multiset<T>)
    ensures (a + x) + y == (a + y) + x
  {
  }

  lemma Cancel<T>(after: multiset<T>, before: multiset<T>, owed: multiset<T>, owes: multiset<T>, sent: multiset<T>)
    requires after + owed == before + owes && owed == owes + sent
    ensures after + sent == before
  {
    assert (after + sent) + owes == before + owes;
    forall x
      ensures (after + sent)[x] == before[x]
    {
      assert ((after + sent) + owes)[x] == (before + owes)[x];
    }
  }

  lemma {:induction false} InFlightUpdate(pubs: seq<Pub>, p: nat, pub: Pub, c: nat)
    requires p < |pubs|
    ensures InFlight(pubs[p := pub], c) + Owes(pubs[p], c) == InFlight(pubs, c) + Owes(pub, c)
    decreases |pubs|
  {
    var n := |pubs| - 1;
    if p == n {
      assert pubs[p := pub][..n] == pubs[..n];
      Swap(InFlight(pubs[..n], c), Owes(pub, c), Owes(pubs[p], c));
    } else {
      InFlightUpdate(pubs[..n], p, pub, c);
      assert pubs[p := pub][..n] == pubs[..n][p := pub];
      AddBoth(InFlight(pubs[..n][p := pub], c), InFlight(pubs[..n], c), Owes(pubs[p], c), Owes(pub, c), Owes(pubs[n], c));
    }
  }

  lemma {:induction false} MatchingUpdate(pubs: seq<Pub>, p: nat, pub: Pub, topic: string)
    requires p < |pubs| && pub.topic == pubs[p].topic && pub.data == pubs[p].data
    ensures Matching(pubs[p := pub], topic) == Matching(pubs, topic)
    decreases |pubs|
  {
    var n := |pubs| - 1;
    if p == n {
      assert pubs[p := pub][..n] == pubs[..n];
    } else {
      MatchingUpdate(pubs[..n], p, pub, topic);
      assert pubs[p := pub][..n] == pubs[..n][p := pub];
    }
  }

  lemma {:induction false} NothingInFlight(pubs: seq<Pub>, c: nat)
    requires forall p | 0 <= p < |pubs| :: c !in pubs[p].remaining
    ensures InFlight(pubs, c) == multiset{}
    decreases |pubs|
  {
    if pubs != [] {
      NothingInFlight(pubs[..|pubs| - 1], c);
    }
  }

  // ------------------------------------------------------------ conservation

  lemma SubscribeInv(s: State, topic: string)
    requires Inv(s)
    ensures Inv(Step(s, Subscribe(topic)))
  {
    var s' := Step(s, Subscribe(topic));
    forall p | 0 <= p < |s'.pubs|
      ensures PubOk(s', p)
    {
      assert PubOk(s, p);
    }
    forall c | 0 <= c < |s'.chans|
      ensures ChanOk(s', c)
    {
      if c < |s.chans| {
        assert ChanOk(s, c) && Seen(s', c) == Seen(s, c);
      }
    }
  }

  lemma SnapshotInv(s: State, topic: string, data: Bytes)
    requires Inv(s)
    ensures Inv(Step(s, Snapshot(topic, data)))
  {
    var s' := Step(s, Snapshot(topic, data));
    var pub := s'.pubs[|s.pubs|];
    SubsOfSpec(s.chans, topic);
    forall p | 0 <= p < |s'.pubs|
      ensures PubOk(s', p)
    {
      if p < |s.pubs| {
        assert PubOk(s, p);
      } else {
        forall c | c in pub.remaining
          ensures c < |s.chans| && s.chans[c].topic == topic && s.chans[c].since <= p
        {
          assert ChanOk(s, c);
        }
      }
    }
    forall c | 0 <= c < |s'.chans|
      ensures ChanOk(s', c)
    {
      assert ChanOk(s, c);
      assert Seen(s', c) == Seen(s, c) + [pub];
      MatchingAppend(Seen(s, c), pub, s.chans[c].topic);
      InFlightAppend(Seen(s, c), pub, c);
    }
  }

  lemma SendPubs(s: State, p: nat)
    requires Inv(s) && Enabled(s, Send(p))
    ensures forall q | 0 <= q < |s.pubs| :: PubOk(Step(s, Send(p)), q)
  {
    var s' := Step(s, Send(p));
    forall q | 0 <= q < |s.pubs|
      ensures PubOk(s', q)
    {
      assert PubOk(s, q);
    }
  }

  /** Sending does not change what a channel should get. */
  lemma SendKeepsWanted(s: State, p: nat, c: nat)
    requires Inv(s) && Enabled(s, Send(p)) && c < |s.chans| && s.chans[c].since <= |s.pubs|
    ensures var s' := Step(s, Send(p));
            s'.chans[c].since == s.chans[c].since && s'.chans[c].topic == s.chans[c].topic && |s'.pubs| == |s.pubs|
            && Matching(Seen(s', c), s.chans[c].topic) == Matching(Seen(s, c), s.chans[c].topic)
  {
    var s' := Step(s, Send(p));
    var since := s.chans[c].since;
    if p < since {
      assert Seen(s', c) == Seen(s, c);
    } else {
      assert Seen(s', c) == Seen(s, c)[p - since := s'.pubs[p]];
      MatchingUpdate(Seen(s, c), p - since, s'.pubs[p], s.chans[c].topic);
    }
  }

  lemma Rebalance<T>(received: multiset<T>, buffered: multiset<T>, before: multiset<T>, after: multiset<T>,
                     sent: multiset<T>)
    requires after + sent == before
    ensures received + (buffered + sent) + after == received + buffered + before
  {
    assert received + (buffered + sent) + after == received + buffered + (after + sent);
  }

  function Sent(pub: Pub, c: nat): multiset<Bytes>
    requires pub.remaining != []
  {
    if c == pub.remaining[0] then multiset{pub.data} else multiset{}
  }

  /** A send moves one message from the debt to the buffer, on one channel only. */
  lemma SendPaysDebt(s: State, p: nat, c: nat)
    requires Inv(s) && Enabled(s, Send(p)) && c < |s.chans| && s.chans[c].since <= p
    ensures s.chans[c].since <= |s.pubs|
    ensures InFlight(Seen(Step(s, Send(p)), c), c) + Sent(s.pubs[p], c) == InFlight(Seen(s, c), c)
  {
    var s' := Step(s, Send(p));
    var seen, at := Seen(s, c), p - s.chans[c].since;
    assert PubOk(s, p);
    assert Seen(s', c) == seen[at := s'.pubs[p]];
    InFlightUpdate(seen, at, s'.pubs[p], c);
    OwesLess(s.pubs[p], c);
    Cancel(InFlight(Seen(s', c), c), InFlight(seen, c), Owes(s.pubs[p], c), Owes(s'.pubs[p], c), Sent(s.pubs[p], c));
  }

  lemma BufferGrows(s: State, p: nat, c: nat)
    requires Enabled(s, Send(p)) && c < |s.chans|
    ensures multiset(Step(s, Send(p)).chans[c].buf) == multiset(s.chans[c].buf) + Sent(s.pubs[p], c)
    ensures Step(s, Send(p)).chans[c].received == s.chans[c].received
  {
  }

  lemma SendChan(s: State, p: nat, c: nat)
    requires Inv(s) && Enabled(s, Send(p)) && c < |s.chans|
    ensures ChanOk(Step(s, Send(p)), c)
  {
    var s' := Step(s, Send(p));
    assert ChanOk(s, c) && PubOk(s, p);
    SendKeepsWanted(s, p, c);
    BufferGrows(s, p, c);
    if p < s.chans[c].since {
      assert Seen(s', c) == Seen(s, c);
      assert c !in s.pubs[p].remaining;
    } else {
      SendPaysDebt(s, p, c);
      Rebalance(multiset(s.chans[c].received), multiset(s.chans[c].buf), InFlight(Seen(s, c), c),
                InFlight(Seen(s', c), c), Sent(s.pubs[p], c));
    }
  }

  lemma OwesLess(pub: Pub, c: nat)
    requires pub.remaining != [] && forall i, j | 0 <= i < j < |pub.remaining| :: pub.remaining[i] < pub.remaining[j]
    ensures Owes(pub, c) == Owes(pub.(remaining := pub.remaining[1..]), c)
                            + Sent(pub, c)
  {
    assert pub.remaining == [pub.remaining[0]] + pub.remaining[1..];
  }

  lemma ReceiveInv(s: State, c: nat)
    requires Inv(s) && Enabled(s, Receive(c))
    ensures Inv(Step(s, Receive(c)))
  {
    var s' := Step(s, Receive(c));
    forall p | 0 <= p < |s'.pubs|
      ensures PubOk(s', p)
    {
      assert PubOk(s, p);
    }
    forall d | 0 <= d < |s'.chans|
      ensures ChanOk(s', d)
    {
      assert ChanOk(s, d) && Seen(s', d) == Seen(s, d);
      if d == c {
        assert s.chans[c].buf == [s.chans[c].buf[0]] + s.chans[c].buf[1..];
      }
    }
  }

  lemma StepInv(s: State, a: Action)
    requires Enabled(s, a) && Inv(s)
    ensures Inv(Step(s, a))
  {
    match a
    case Subscribe(topic) => SubscribeInv(s, topic);
    case Snapshot(topic, data) => SnapshotInv(s, topic, data);
    case Send(p) =>
      SendPubs(s, p);
      forall c | 0 <= c < |s.chans|
        ensures ChanOk(Step(s, a), c)
      {
        SendChan(s, p, c);
      }
    case Receive(c) => ReceiveInv(s, c);
  }

  lemma {:induction false} RunInv(s: State, run: seq<Action>)
    requires ValidRun(s, run) && Inv(s)
    ensures Inv(Exec(s, run))
    decreases |run|
  {
    if run != [] {
      StepInv(s, run[0]);
      RunInv(Step(s, run[0]), run[1..]);
    }
  }

  /**
   * On every interleaving, what a channel has received, what is buffered and
   * what publishes in flight still owe it are together exactly the publishes
   * on its topic whose snapshot followed its subscription.
   */
  lemma Conservation(run: seq<Action>, c: nat)
    requires ValidRun(EMPTY, run) && c < |Exec(EMPTY, run).chans|
    ensures var s := Exec(EMPTY, run);
            && s.chans[c].since <= |s.pubs|
            && multiset(s.chans[c].received) + multiset(s.chans[c].buf) + InFlight(Seen(s, c), c)
               == multiset(Matching(Seen(s, c), s.chans[c].topic))
            && |s.chans[c].buf| <= 100
  {
    RunInv(EMPTY, run);
    assert ChanOk(Exec(EMPTY, run), c);
  }

  // -------------------------------------------------- one sequential publisher

  /** A publish starts only when every earlier one has returned. */
  ghost predicate SequentialRun(s: State, run: seq<Action>)
    requires ValidRun(s, run)
    decreases |run|
  {
    run != [] ==>
      && (run[0].Snapshot? ==> forall p | 0 <= p < |s.pubs| :: s.pubs[p].remaining == [])
      && SequentialRun(Step(s, run[0]), run[1..])
  }

  function Delivered(ch: Chan): seq<Bytes> {
    ch.received + ch.buf
  }

  /** Only the last publish is unfinished; without it, each channel got its matching suffix in order. */
  ghost predicate InOrder(s: State) {
    && (forall p | 0 <= p < |s.pubs| - 1 :: s.pubs[p].remaining == [])
    && forall c | 0 <= c < |s.chans| :: ChanInOrder(s, c)
  }

  ghost predicate ChanInOrder(s: State, c: nat)
    requires c < |s.chans|
  {
    && s.chans[c].since <= |s.pubs|
    && var want := Matching(Seen(s, c), s.chans[c].topic);
       if s.pubs != [] && c in s.pubs[|s.pubs| - 1].remaining
       then want == Delivered(s.chans[c]) + [s.pubs[|s.pubs| - 1].data]
       else want == Delivered(s.chans[c])
  }

  lemma SnapshotChanInOrder(s: State, topic: string, data: Bytes, c: nat)
    requires InOrder(s) && c < |s.chans|
    requires forall p | 0 <= p < |s.pubs| :: s.pubs[p].remaining == []
    ensures ChanInOrder(Step(s, Snapshot(topic, data)), c)
  {
    var s' := Step(s, Snapshot(topic, data));
    var pub := s'.pubs[|s.pubs|];
    SubsOfSpec(s.chans, topic);
    assert ChanInOrder(s, c);
    assert Seen(s', c) == Seen(s, c) + [pub];
    MatchingAppend(Seen(s, c), pub, s.chans[c].topic);
    assert c in pub.remaining <==> s.chans[c].topic == topic;
  }

  lemma SnapshotInOrder(s: State, topic: string, data: Bytes)
    requires InOrder(s) && forall p | 0 <= p < |s.pubs| :: s.pubs[p].remaining == []
    ensures InOrder(Step(s, Snapshot(topic, data)))
  {
    forall c | 0 <= c < |s.chans|
      ensures ChanInOrder(Step(s, Snapshot(topic, data)), c)
    {
      SnapshotChanInOrder(s, topic, data, c);
    }
  }

  lemma SendInOrder(s: State, p: nat, c: nat)
    requires Inv(s) && InOrder(s) && Enabled(s, Send(p)) && c < |s.chans|
    ensures ChanInOrder(Step(s, Send(p)), c)
  {
    var s' := Step(s, Send(p));
    var rem := s.pubs[p].remaining;
    assert ChanInOrder(s, c) && PubOk(s, p) && p == |s.pubs| - 1;
    SendKeepsWanted(s, p, c);
    assert rem == [rem[0]] + rem[1..];
    if c == rem[0] {
      assert c !in rem[1..];
      assert Delivered(s'.chans[c]) == Delivered(s.chans[c]) + [s.pubs[p].data];
    } else {
      assert c in rem <==> c in rem[1..];
    }
  }

  lemma StepInOrder(s: State, a: Action)
    requires Enabled(s, a) && Inv(s) && InOrder(s)
    requires a.Snapshot? ==> forall p | 0 <= p < |s.pubs| :: s.pubs[p].remaining == []
    ensures InOrder(Step(s, a))
  {
    var s' := Step(s, a);
    match a
    case Snapshot(topic, data) => SnapshotInOrder(s, topic, data);
    case Send(p) =>
      forall c | 0 <= c < |s.chans|
        ensures ChanInOrder(s', c)
      {
        SendInOrder(s, p, c);
      }
    case Subscribe(topic) =>
      forall c | 0 <= c < |s'.chans|
        ensures ChanInOrder(s', c)
      {
        if c < |s.chans| {
          assert ChanInOrder(s, c) && Seen(s', c) == Seen(s, c);
        } else {
          assert s.pubs != [] ==> PubOk(s, |s.pubs| - 1);
        }
      }
    case Receive(r) =>
      forall c | 0 <= c < |s'.chans|
        ensures ChanInOrder(s', c)
      {
        assert ChanInOrder(s, c) && Seen(s', c) == Seen(s, c);
        assert Delivered(s'.chans[c]) == Delivered(s.chans[c]);
      }
  }

  lemma {:induction false} RunInOrder(s: State, run: seq<Action>)
    requires ValidRun(s, run) && Inv(s) && InOrder(s) && SequentialRun(s, run)
    ensures Inv(Exec(s, run)) && InOrder(Exec(s, run))
    decreases |run|
  {
    if run != [] {
      StepInv(s, run[0]);
      StepInOrder(s, run[0]);
      RunInOrder(Step(s, run[0]), run[1..]);
    }
  }

  /**
   * With one sequential publisher each channel's messages, received and
   * buffered, are a prefix of the matching suffix of the published record,
   * lacking at most the message being sent.
   */
  lemma OrderKept(run: seq<Action>, c: nat)
    requires ValidRun(EMPTY, run) && SequentialRun(EMPTY, run) && c < |Exec(EMPTY, run).chans|
    ensures var s := Exec(EMPTY, run);
            && s.chans[c].since <= |s.pubs|
            && var want := Matching(Seen(s, c), s.chans[c].topic);
               && Delivered(s.chans[c]) <= want
               && |want| <= |Delivered(s.chans[c])| + 1
               && ((forall p | 0 <= p < |s.pubs| :: s.pubs[p].remaining == []) ==> Delivered(s.chans[c]) == want)
  {
    RunInOrder(EMPTY, run);
    assert ChanInOrder(Exec(EMPTY, run), c);
  }
}
