/** `SyncProducer.Send` (pkg/producer/producer.go:356-415): it rewrites the caller's message before
    publishing, so sending the same message again starts from the rewritten one. */
module SyncProducers {
  import opened Optional
  import opened Errors
  import opened Messages
  import opened InMemory
  import R = Registry

  /** `compress` may fail; `decompress` is the receiver's side. */
  datatype Compressor = Compressor(compress: seq<byte> -> Option<seq<byte>>,
                                   decompress: seq<byte> -> Option<seq<byte>>, algorithm: string)

  const CONTENT_TYPE := "content-type"
  const CONTENT_ENCODING := "content-encoding"

  /** The message after the rewriting, and whether compression worked. A nil value is left alone. */
  function Prepare(c: Content, hasValue: bool, contentType: Option<string>, z: Option<Compressor>): (Content, bool) {
    var c1 := if contentType.Some? && hasValue then WithHeader(c, CONTENT_TYPE, contentType.value) else c;
    if z.None? || !hasValue then (c1, true)
    else
      match z.value.compress(c1.value)
      case None => (c1, false)
      case Some(v) => (WithHeader(c1.(value := v), CONTENT_ENCODING, z.value.algorithm), true)
  }

  class SyncProducer {
    const broker: InMemoryBroker
    /** The serializer's content type, when one is set. */
    var contentType: Option<string>
    var compressor: Option<Compressor>
    var sent: nat
    var failed: nat

    constructor (broker: InMemoryBroker)
      ensures this.broker == broker && contentType.None? && compressor.None? && sent == 0 && failed == 0
    {
      this.broker := broker;
      contentType, compressor, sent, failed := None, None, 0, 0;
    }

    /** The message is rewritten whether or not the publish then succeeds; each call is counted once.
        `spawned` is what the publish starts. A failed compression fails the call before anything is
        published; a message without a value is left alone. */
    method Send(topic: string, msg: Message, now: int, ghost tag: R.Msg) returns (err: Error, spawned: seq<Spawn>)
      requires broker.Valid() && this !in broker.Repr
      requires msg.Footprint() !! broker.Repr
      modifies msg, msg.headers, this`sent, this`failed, broker`queues, broker`contents, broker`Repr, broker`ops
      ensures broker.Valid() && this !in broker.Repr && msg.Footprint() !! broker.Repr
      ensures forall o :: o in msg.Footprint() ==> o in old(msg.Footprint()) || fresh(o)
      ensures var (c, ok) := Prepare(old(msg.View()), old(msg.value) != null, contentType, compressor);
              && msg.View() == c
              && (err.Nil? <==> ok && broker.connected)
              && broker.contents == (if err.Nil? then old(broker.contents)[topic :=
                                       AtOrEmpty(old(broker.contents), topic) + [Stamp(c, topic, now)]]
                                     else old(broker.contents))
              && broker.ops == old(broker.ops) + (if ok then [R.Publish(topic, tag)] else [])
              && (err.Nil? ==> Delivered(spawned, R.Deliveries(R.Subs(broker.View(), topic), tag),
                                         Stamp(c, topic, now)))
      ensures !err.Nil? ==> spawned == []
      ensures Apart(spawned)
      ensures sent == old(sent) + (if err.Nil? then 1 else 0)
      ensures sent + failed == old(sent) + old(failed) + 1
      ensures old(msg.value) != null <==> msg.value != null
      ensures old(msg.value) == null || compressor.None? || compressor.value.compress(old(Bytes(msg.value))).Some? ==>
                (err.Nil? <==> broker.connected) && broker.ops == old(broker.ops) + [R.Publish(topic, tag)]
      ensures old(msg.value) == null ==> msg.View() == old(msg.View())
      ensures msg.id == old(msg.id) && msg.topic == old(msg.topic) && msg.key == old(msg.key)
              && msg.timestamp == old(msg.timestamp)
      ensures old(msg.value) != null && compressor.Some? ==>
                match compressor.value.compress(old(Bytes(msg.value)))
                case None => !err.Nil? && failed == old(failed) + 1 && broker.ops == old(broker.ops)
                             && broker.contents == old(broker.contents) && msg.value == old(msg.value)
                             && msg.GetHeader("content-encoding") == old(msg.GetHeader("content-encoding"))
                case Some(v) => Bytes(msg.value) == v
                                && msg.GetHeader("content-encoding") == compressor.value.algorithm
      ensures compressor.None? ==>
                && msg.value == old(msg.value)
                && msg.GetHeader("content-encoding") == old(msg.GetHeader("content-encoding"))
      ensures msg.GetHeader("content-type")
              == if contentType.Some? && old(msg.value) != null then contentType.value
                 else old(msg.GetHeader("content-type"))
      ensures forall name :: name != "content-type" && name != "content-encoding" ==>
                msg.GetHeader(name) == old(msg.GetHeader(name))
    {
      hide InMemoryBroker.Valid, Delivered, Apart, R.Deliveries, R.Subs, Stamp, AtOrEmpty, Prepare, WithHeader;
      var ok := Rewrite(msg);
      if !ok {
        failed := failed + 1;
        NoneApart();
        return Sentinel(200), [];
      }
      err, spawned := Push(topic, msg, now, tag);
    }

    /** Publish the rewritten message and count the outcome. */
    method Push(topic: string, msg: Message, now: int, ghost tag: R.Msg) returns (err: Error, spawned: seq<Spawn>)
      requires broker.Valid() && this !in broker.Repr && msg.Footprint() !! broker.Repr
      modifies this`sent, this`failed, broker`queues, broker`contents, broker`Repr, broker`ops
      ensures broker.Valid() && this !in broker.Repr && msg.Footprint() !! broker.Repr
      ensures err.Nil? <==> broker.connected
      ensures broker.contents == (if err.Nil? then old(broker.contents)[topic :=
                                    AtOrEmpty(old(broker.contents), topic) + [Stamp(msg.View(), topic, now)]]
                                  else old(broker.contents))
      ensures broker.ops == old(broker.ops) + [R.Publish(topic, tag)] && Apart(spawned)
      ensures if err.Nil? then Delivered(spawned, R.Deliveries(R.Subs(broker.View(), topic), tag),
                                         Stamp(msg.View(), topic, now))
              else spawned == []
      ensures sent == old(sent) + (if err.Nil? then 1 else 0)
      ensures sent + failed == old(sent) + old(failed) + 1
    {
      hide InMemoryBroker.Valid, R.Deliveries, R.Subs, Stamp, AtOrEmpty;
      err, spawned := broker.Publish(topic, msg, now, tag);
      if err.Nil? {
        sent := sent + 1;
      } else {
        failed := failed + 1;
      }
    }

    method Rewrite(msg: Message) returns (ok: bool)
      modifies msg, msg.headers
      ensures (msg.View(), ok) == Prepare(old(msg.View()), old(msg.value) != null, contentType, compressor)
      ensures old(msg.value) != null <==> msg.value != null
      ensures forall o :: o in msg.Footprint() ==> o in old(msg.Footprint()) || fresh(o)
      ensures old(msg.value) == null ==> msg.View() == old(msg.View())
      ensures msg.id == old(msg.id) && msg.topic == old(msg.topic) && msg.key == old(msg.key)
              && msg.timestamp == old(msg.timestamp)
      ensures old(msg.value) != null && compressor.Some? ==>
                match compressor.value.compress(old(Bytes(msg.value)))
                case None => !ok && msg.value == old(msg.value)
                             && msg.GetHeader("content-encoding") == old(msg.GetHeader("content-encoding"))
                case Some(v) => Bytes(msg.value) == v && ok
                                && msg.GetHeader("content-encoding") == compressor.value.algorithm
      ensures compressor.None? ==>
                && msg.value == old(msg.value) && ok
                && msg.GetHeader("content-encoding") == old(msg.GetHeader("content-encoding"))
      ensures msg.GetHeader("content-type")
              == if contentType.Some? && old(msg.value) != null then contentType.value
                 else old(msg.GetHeader("content-type"))
      ensures forall name :: name != "content-type" && name != "content-encoding" ==>
                msg.GetHeader(name) == old(msg.GetHeader(name))
      ensures old(msg.value) == null ==> ok
    {
      NamesDiffer();
      if contentType.Some? && msg.value != null {
        msg.SetHeader(CONTENT_TYPE, contentType.value);
      }
      if compressor.Some? && msg.value != null {
        var z := compressor.value.compress(msg.value[..]);
        if z.None? {
          return false;
        }
        msg.value := FromBytes(z.value);
        msg.SetHeader(CONTENT_ENCODING, compressor.value.algorithm);
      }
      ok := true;
    }
  }

  lemma NamesDiffer()
    ensures CONTENT_TYPE == "content-type" && CONTENT_ENCODING == "content-encoding"
    ensures CONTENT_TYPE != CONTENT_ENCODING
  {
    assert CONTENT_TYPE[8] == 't' && CONTENT_ENCODING[8] == 'e';
  }

  lemma NoneApart()
    ensures Apart([])
  {
  }

  method FromBytes(s: seq<byte>) returns (a: array<byte>)
    ensures fresh(a) && a[..] == s
  {
    a := new byte[|s|];
    for i := 0 to |s|
      invariant a[..i] == s[..i]
    {
      a[i] := s[i];
    }
  }

  // --------------------------------------------------------------- sending again

  /** Compression never fails and the receiver can undo it. */
  ghost predicate Lossless(z: Compressor) {
    forall v :: z.compress(v).Some? && z.decompress(z.compress(v).value) == Some(v)
  }

  function Times(z: Compressor, v: seq<byte>, n: nat): seq<byte>
    requires Lossless(z)
  {
    if n == 0 then v else z.compress(Times(z, v, n - 1)).value
  }

  /** The message after n Sends of it. */
  function SentTimes(c: Content, contentType: Option<string>, z: Compressor, n: nat): Content {
    if n == 0 then c else Prepare(SentTimes(c, contentType, z, n - 1), true, contentType, Some(z)).0
  }

  lemma {:induction false} EverySendCompressesAgain(c: Content, contentType: Option<string>, z: Compressor, n: nat)
    requires Lossless(z)
    ensures SentTimes(c, contentType, z, n).value == Times(z, c.value, n)
  {
    if n > 0 {
      EverySendCompressesAgain(c, contentType, z, n - 1);
    }
  }

  /** A caller that sends the same message again until the broker is up: n Sends fail, then one gets
      through, and what it queues has been rewritten n + 1 times. */
  method SendUntilUp(sp: SyncProducer, topic: string, msg: Message, n: nat, now: int, ghost tag: nat -> R.Msg)
    returns (err: Error)
    requires sp.broker.Valid() && sp !in sp.broker.Repr && msg.Footprint() !! sp.broker.Repr
    requires !sp.broker.connected && msg.value != null
    requires sp.compressor.Some? && Lossless(sp.compressor.value)
    modifies msg, msg.headers, sp`sent, sp`failed
    modifies sp.broker`queues, sp.broker`contents, sp.broker`Repr, sp.broker`ops, sp.broker`connected
    ensures sp.broker.Valid() && err.Nil? && sp.sent == old(sp.sent) + 1 && sp.failed == old(sp.failed) + n
    ensures var c := SentTimes(old(msg.View()), sp.contentType, sp.compressor.value, n + 1);
            && msg.View() == c
            && sp.broker.contents == old(sp.broker.contents)[topic :=
                 AtOrEmpty(old(sp.broker.contents), topic) + [Stamp(c, topic, now)]]
  {
    hide InMemoryBroker.Valid, Delivered, Apart, R.Deliveries, R.Subs, Stamp, AtOrEmpty, Prepare, Lossless;
    ghost var z := sp.compressor.value;
    SendWhileDown(sp, topic, msg, n, now, tag);
    sp.broker.Connect();
    CompressionWorks(SentTimes(old(msg.View()), sp.contentType, z, n), sp.contentType, z);
    var spawned;
    err, spawned := sp.Send(topic, msg, now, tag(n));
  }

  /** The n Sends that fail. */
  method SendWhileDown(sp: SyncProducer, topic: string, msg: Message, n: nat, now: int, ghost tag: nat -> R.Msg)
    requires sp.broker.Valid() && sp !in sp.broker.Repr && msg.Footprint() !! sp.broker.Repr
    requires !sp.broker.connected && msg.value != null && sp.compressor.Some?
    modifies msg, msg.headers, sp`sent, sp`failed
    modifies sp.broker`queues, sp.broker`contents, sp.broker`Repr, sp.broker`ops
    ensures sp.broker.Valid() && sp !in sp.broker.Repr && msg.Footprint() !! sp.broker.Repr
    ensures forall o :: o in msg.Footprint() ==> o in old(msg.Footprint()) || fresh(o)
    ensures msg.value != null && sp.sent == old(sp.sent) && sp.failed == old(sp.failed) + n
    ensures msg.View() == SentTimes(old(msg.View()), sp.contentType, sp.compressor.value, n)
    ensures sp.broker.contents == old(sp.broker.contents)
  {
    hide InMemoryBroker.Valid, Delivered, Apart, R.Deliveries, R.Subs, Stamp, AtOrEmpty, Prepare;
    hide WithHeader, Message.GetHeader, Message.Carries;
    for i := 0 to n
      invariant sp.broker.Valid() && sp !in sp.broker.Repr && msg.Footprint() !! sp.broker.Repr
      invariant forall o :: o in msg.Footprint() ==> o in old(msg.Footprint()) || fresh(o)
      invariant msg.value != null && sp.sent == old(sp.sent) && sp.failed == old(sp.failed) + i
      invariant msg.View() == SentTimes(old(msg.View()), sp.contentType, sp.compressor.value, i)
      invariant sp.broker.contents == old(sp.broker.contents)
    {
      var e, _ := sp.Send(topic, msg, now, tag(i));
    }
  }

  lemma CompressionWorks(c: Content, contentType: Option<string>, z: Compressor)
    requires Lossless(z)
    ensures Prepare(c, true, contentType, Some(z)).1
  {
  }

  /** If n Sends failed to publish before one got through, the receiver's single decompression
      yields the value compressed n times. */
  lemma ReceiverDecompressesOnce(c: Content, contentType: Option<string>, z: Compressor, n: nat)
    requires Lossless(z)
    ensures z.decompress(SentTimes(c, contentType, z, n + 1).value) == Some(Times(z, c.value, n))
  {
    EverySendCompressesAgain(c, contentType, z, n + 1);
    var inner := Times(z, c.value, n);
    assert Times(z, c.value, n + 1) == z.compress(inner).value;
  }

  ghost predicate RoundTrips(c: Content, contentType: Option<string>, z: Compressor, n: nat) {
    z.decompress(SentTimes(c, contentType, z, n + 1).value) == Some(c.value)
  }

  /** Compression that prefixes a byte. */
  function Pad(): Compressor {
    Compressor((v: seq<byte>) => Some([0] + v), (v: seq<byte>) => if v == [] then None else Some(v[1..]), "pad")
  }

  lemma PadIsLossless()
    ensures Lossless(Pad())
  {
    forall v: seq<byte> ensures Pad().compress(v).Some? && Pad().decompress(Pad().compress(v).value) == Some(v) {
      assert Pad().compress(v) == Some([0] + v);
      assert ([0] + v)[1..] == v;
    }
  }

  lemma PadOnce(v: seq<byte>)
    ensures Pad().compress(v) == Some([0] + v)
  {
  }

  lemma {:induction false} PadGrows(v: seq<byte>, n: nat)
    requires Lossless(Pad())
    ensures |Times(Pad(), v, n)| == |v| + n
  {
    hide Pad, Lossless;
    if n > 0 {
      PadGrows(v, n - 1);
      PadOnce(Times(Pad(), v, n - 1));
    }
  }

  /** A lossless compressor for which any failed attempt corrupts every payload. */
  lemma ResendCanCorrupt(c: Content, contentType: Option<string>, n: nat)
    requires n > 0
    ensures Lossless(Pad()) && !RoundTrips(c, contentType, Pad(), n)
  {
    PadIsLossless();
    ReceiverDecompressesOnce(c, contentType, Pad(), n);
    PadGrows(c.value, n);
  }

  /** The receiver is sure to get the original value back - whatever lossless compressor is used -
      exactly when no Send of the message has failed before. */
  lemma ResendRoundTripIff(c: Content, contentType: Option<string>, n: nat)
    ensures (forall z :: Lossless(z) ==> RoundTrips(c, contentType, z, n)) <==> n == 0
  {
    if n == 0 {
      forall z | Lossless(z) ensures RoundTrips(c, contentType, z, 0) {
        ReceiverDecompressesOnce(c, contentType, z, 0);
      }
    } else {
      ResendCanCorrupt(c, contentType, n);
    }
  }
}
