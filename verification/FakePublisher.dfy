/**
 * The fake broker and publisher over real buffers: channels are objects,
 * payloads are byte arrays, and what is shared and what is copied matters.
 */
module FakePublisher {
  import opened Wrappers
  import opened BrokerModel

  /** A Go channel of []byte with the buffer that Subscribe gives it. */
  class Channel {
    var buf: seq<array<bv8>>

    constructor ()
      ensures buf == []
    {
      buf := [];
    }

    predicate Full()
      reads this
    {
      |buf| >= BUFFER
    }
  }

  class Broker {
    var byTopic: map<string, seq<Channel>>

    /** No channel is subscribed twice. */
    ghost predicate Valid()
      reads this
    {
      forall s, t, i, j | s in byTopic && t in byTopic && 0 <= i < |byTopic[s]| && 0 <= j < |byTopic[t]| ::
        byTopic[s][i] == byTopic[t][j] ==> s == t && i == j
    }

    function Subs(topic: string): seq<Channel>
      reads this
    {
      if topic in byTopic then byTopic[topic] else []
    }

    constructor ()
      ensures Valid() && byTopic == map[]
    {
      byTopic := map[];
    }

    /** Subscribe: a fresh empty channel behind the others of its topic. */
    method Subscribe(topic: string) returns (ch: Channel)
      requires Valid()
      modifies this
      ensures Valid() && fresh(ch) && ch.buf == []
      ensures byTopic == old(byTopic)[topic := old(Subs(topic)) + [ch]]
    {
      ch := new Channel();
      byTopic := byTopic[topic := Subs(topic) + [ch]];
    }

    /**
     * Publish: send to the subscribers in order. The result says how many
     * sends went through before one would block on a full channel.
     */
    method Publish(topic: string, data: array<bv8>) returns (sent: nat)
      requires Valid()
      modifies set ch | ch in Subs(topic)
      ensures Valid() && byTopic == old(byTopic)
      ensures sent <= |Subs(topic)|
      ensures sent < |Subs(topic)| ==> |Subs(topic)[sent].buf| >= 100
      ensures forall i | 0 <= i < sent ::
                old(|Subs(topic)[i].buf|) < 100 && Subs(topic)[i].buf == old(Subs(topic)[i].buf) + [data]
      ensures forall i | sent <= i < |Subs(topic)| :: Subs(topic)[i].buf == old(Subs(topic)[i].buf)
    {
      var subs := Subs(topic);
      sent := 0;
      while sent < |subs|
        invariant 0 <= sent <= |subs|
        invariant forall i | 0 <= i < sent :: !old(subs[i].Full()) && subs[i].buf == old(subs[i].buf) + [data]
        invariant forall i | sent <= i < |subs| :: subs[i].buf == old(subs[i].buf)
      {
        if subs[sent].Full() {
          return;
        }
        subs[sent].buf := subs[sent].buf + [data];
        sent := sent + 1;
      }
    }
  }

  datatype PublishedMessage = PublishedMessage(topic: string, data: array<bv8>)

  /** What a record says, apart from where its bytes live. */
  datatype Content = Content(topic: string, bytes: Bytes)

  class Publisher {
    const broker: Broker
    var published: seq<PublishedMessage>

    constructor (broker: Broker)
      ensures this.broker == broker && published == []
    {
      this.broker := broker;
      published := [];
    }

    ghost function Buffers(): set<object>
      reads this
    {
      set i | 0 <= i < |published| :: published[i].data
    }

    function Contents(): (r: seq<Content>)
      reads this, set i | 0 <= i < |published| :: published[i].data
      ensures |r| == |published|
    {
      seq(|published|, i requires 0 <= i < |published|
                         reads this, set j | 0 <= j < |published| :: published[j].data =>
        Content(published[i].topic, published[i].data[..]))
    }

    /** append([]byte(nil), data...): the same bytes in a buffer of their own. */
    static method Copy(data: array<bv8>) returns (buf: array<bv8>)
      ensures fresh(buf) && buf[..] == data[..]
    {
      buf := new bv8[data.Length](_ => 0);
      var i := 0;
      while i < data.Length
        invariant 0 <= i <= data.Length
        invariant buf[..i] == data[..i]
      {
        buf[i] := data[i];
        i := i + 1;
      }
    }

    /**
     * Publish: the record grows by this message in a buffer the caller does
     * not have, and that very buffer is what the subscribers get.
     */
    method Publish(topic: string, data: array<bv8>) returns (sent: nat)
      requires broker.Valid()
      modifies this`published, set ch | ch in broker.Subs(topic)
      ensures broker.Valid() && broker.byTopic == old(broker.byTopic)
      ensures |published| == |old(published)| + 1 && old(published) <= published
      ensures published[|old(published)|].topic == topic
      ensures fresh(published[|old(published)|].data) && published[|old(published)|].data[..] == old(data[..])
      ensures Contents() == old(Contents()) + [Content(topic, old(data[..]))]
      ensures sent <= |broker.Subs(topic)|
      ensures sent < |broker.Subs(topic)| ==> |broker.Subs(topic)[sent].buf| >= 100
      ensures forall i | 0 <= i < sent ::
                broker.Subs(topic)[i].buf == old(broker.Subs(topic)[i].buf) + [published[|old(published)|].data]
      ensures forall i | sent <= i < |broker.Subs(topic)| :: broker.Subs(topic)[i].buf == old(broker.Subs(topic)[i].buf)
    {
      var buf := Copy(data);
      published := published + [PublishedMessage(topic, buf)];
      sent := broker.Publish(topic, buf);
    }

    /** Published: a snapshot with the same contents in buffers that nobody else has. */
    method Published() returns (out: seq<PublishedMessage>)
      ensures |out| == |published|
      ensures forall i | 0 <= i < |out| ::
                && fresh(out[i].data)
                && Content(out[i].topic, out[i].data[..]) == Contents()[i]
      ensures forall i, j | 0 <= i < j < |out| :: out[i].data != out[j].data
    {
      out := [];
      var i := 0;
      while i < |published|
        invariant 0 <= i <= |published| && |out| == i
        invariant forall k | 0 <= k < i ::
                    && fresh(out[k].data)
                    && Content(out[k].topic, out[k].data[..]) == Contents()[k]
        invariant forall k, m | 0 <= k < m < i :: out[k].data != out[m].data
      {
        var buf := Copy(published[i].data);
        out := out + [PublishedMessage(published[i].topic, buf)];
        i := i + 1;
      }
    }
  }

  /**
   * Whoever writes a byte into whatever buffer: it shows in exactly the records
   * that hold that buffer, so the record changes if and only if the buffer is
   * recorded and the byte is a different one.
   */
  method WriteShowsIff(p: Publisher, a: array<bv8>, at: nat, b: bv8)
    requires at < a.Length
    modifies a
    ensures p.published == old(p.published) && a[..] == old(a[..])[at := b]
    ensures forall i | 0 <= i < |p.published| ::
              p.Contents()[i] == if p.published[i].data == a then Content(p.published[i].topic, old(a[..])[at := b])
                                 else old(p.Contents())[i]
    ensures p.Contents() == old(p.Contents()) <==> a !in p.Buffers() || b == old(a[at])
  {
    ghost var was := p.Contents();
    a[at] := b;
    if a in p.Buffers() && b != old(a[at]) {
      ghost var i :| 0 <= i < |p.published| && p.published[i].data == a;
      assert p.Contents()[i].bytes[at] == b && was[i].bytes[at] == old(a[at]);
    } else if b == old(a[at]) {
      assert a[..] == old(a[..]);
    }
  }

  /**
   * What the caller writes into its own buffer after publishing it does not
   * reach the record, unless that buffer was a recorded one already: a message
   * it had received and passed on.
   */
  method CallerIsIndependent(p: Publisher, topic: string, data: array<bv8>, at: nat, b: bv8)
    requires p.broker.Valid() && at < data.Length
    modifies p`published, data, set ch | ch in p.broker.Subs(topic)
    ensures p.Contents() == old(p.Contents()) + [Content(topic, old(data[..]))]
            <==> data !in old(p.Buffers()) || b == old(data[at])
  {
    var sent := p.Publish(topic, data);
    RecordedBefore(p, old(p.published), data);
    WriteShowsIff(p, data, at, b);
  }

  /** A buffer that is not the last one recorded is recorded if it was before. */
  lemma RecordedBefore(p: Publisher, before: seq<PublishedMessage>, a: array<bv8>)
    requires |p.published| == |before| + 1 && before <= p.published && p.published[|before|].data != a
    ensures a in p.Buffers() <==> exists i :: 0 <= i < |before| && before[i].data == a
  {
    assert forall i | 0 <= i < |before| :: p.published[i] == before[i];
    if i :| 0 <= i < |before| && before[i].data == a {
      assert p.published[i].data == a;
    }
  }

  /** What anybody writes into a snapshot does not reach the record either. */
  method SnapshotIsIndependent(p: Publisher, k: nat, at: nat, b: bv8)
    requires k < |p.published| && at < p.published[k].data.Length
    ensures p.Contents() == old(p.Contents()) && p.published == old(p.published)
  {
    var out := p.Published();
    assert Content(out[k].topic, out[k].data[..]).bytes == p.Contents()[k].bytes == p.published[k].data[..];
    assert out[k].data.Length == |out[k].data[..]|;
    out[k].data[at] := b;
  }

  /**
   * A subscriber is not covered: it shares the recorded buffer, so what it
   * writes into the message it received shows in the record.
   */
  method SubscriberRewritesRecord(p: Publisher, topic: string, data: array<bv8>, k: nat, at: nat, b: bv8)
    requires p.broker.Valid() && k < |p.broker.Subs(topic)| && at < data.Length
    requires forall i | 0 <= i <= k :: |p.broker.Subs(topic)[i].buf| < 100
    modifies p`published, set ch | ch in p.broker.Subs(topic)
    ensures p.Contents() == old(p.Contents()) + [Content(topic, old(data[..])[at := b])]
  {
    var n := |p.published|;
    ghost var was, bytes := p.Contents(), data[..];
    var sent := p.Publish(topic, data);
    assert sent > k;
    var ch := p.broker.Subs(topic)[k];
    var received := ch.buf[|ch.buf| - 1];
    assert received == p.published[n].data;
    ReceivedIsRecorded(p, n, bytes);
    assert received !in set i | 0 <= i < n :: p.published[i].data;
    received[at] := b;
    assert received[..] == bytes[at := b];
    assert p.Contents()[n] == Content(topic, bytes[at := b]);
    assert p.Contents() == was + [Content(topic, bytes[at := b])];
  }

  lemma ReceivedIsRecorded(p: Publisher, n: nat, bytes: Bytes)
    requires n < |p.published| && p.published[n].data[..] == bytes
    ensures p.published[n].data.Length == |bytes|
  {
    assert |p.published[n].data[..]| == |bytes|;
  }
}
