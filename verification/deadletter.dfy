/** `DeadLetterHandler` (pkg/consumer/consumer.go:188-248) and its documented composition with
    `WithRetry` (challenges/runner/main.go:370-379). */
module DeadLetter {
  import opened Optional
  import opened Errors
  import opened Messages
  import opened InMemory
  import opened Backoff
  import opened Retry
  import R = Registry

  const REASON := "x-dlq-reason"
  const ORIGINAL_TOPIC := "x-dlq-original-topic"
  const TIMESTAMP := "x-dlq-timestamp"

  function HeadersOf(c: Content): map<string, string> {
    if c.headers.None? then map[] else c.headers.value
  }

  /** `c` with the three headers of a dead letter. */
  function Annotated(c: Content, reason: string, stamp: string): Content {
    WithHeader(WithHeader(WithHeader(c, REASON, reason), ORIGINAL_TOPIC, c.topic), TIMESTAMP, stamp)
  }

  /** The message that lands in the dead letter queue for `c`. */
  function DlqCopy(c: Content, reason: string, stamp: string, dlqTopic: string, now: int): Content {
    Stamp(Annotated(c, reason, stamp), dlqTopic, now)
  }

  /** What a consumer of the dead letter queue can rely on. */
  lemma DlqCopyKeepsMessage(c: Content, reason: string, stamp: string, dlqTopic: string, now: int)
    ensures var d := DlqCopy(c, reason, stamp, dlqTopic, now);
            && d.id == c.id && d.key == c.key && d.value == c.value && d.topic == dlqTopic && d.timestamp == now
            && d.headers.Some?
            && d.headers.value.Keys
               == HeadersOf(c).Keys + {"x-dlq-reason", "x-dlq-original-topic", "x-dlq-timestamp"}
            && d.headers.value["x-dlq-reason"] == reason
            && d.headers.value["x-dlq-original-topic"] == c.topic
            && d.headers.value["x-dlq-timestamp"] == stamp
            && (c.headers.Some? ==>
                  forall k :: k in c.headers.value
                              && k !in {"x-dlq-reason", "x-dlq-original-topic", "x-dlq-timestamp"} ==>
                    d.headers.value[k] == c.headers.value[k])
  {
    assert REASON[6] == 'r' && ORIGINAL_TOPIC[6] == 'o' && TIMESTAMP[6] == 't';
  }

  /** The queue of the dead letter topic, and the counter. */
  datatype Ledger = Ledger(queue: seq<Content>, count: nat)

  datatype Fate = Handled | DeadLettered | PublishFailed

  class DeadLetterHandler {
    const broker: InMemoryBroker
    const dlqTopic: string
    var count: nat

    constructor (broker: InMemoryBroker, dlqTopic: string)
      ensures this.broker == broker && this.dlqTopic == dlqTopic && count == 0
    {
      this.broker, this.dlqTopic, this.count := broker, dlqTopic, 0;
    }

    ghost function Books(): Ledger
      reads this, broker
    {
      Ledger(AtOrEmpty(broker.contents, dlqTopic), count)
    }

    /** Publish an annotated copy; the message itself is left alone. `spawned` is what the publish
        starts. */
    method Handle(msg: Message, originalErr: Error, reason: string, stamp: string, now: int, ghost tag: R.Msg)
      returns (err: Error, spawned: seq<Spawn>)
      requires broker.Valid() && this !in broker.Repr
      requires msg.Footprint() !! broker.Repr
      modifies this`count, broker`queues, broker`contents, broker`Repr, broker`ops
      ensures broker.Valid() && old(broker.Repr) <= broker.Repr && fresh(broker.Repr - old(broker.Repr))
      ensures err == if broker.connected then Nil else Wrapped(0, ErrNotConnected)
      ensures Books() == if err.Nil? then Entered(old(Books()), DlqCopy(msg.View(), reason, stamp, dlqTopic, now))
                         else old(Books())
      ensures broker.ops == old(broker.ops) + [R.Publish(dlqTopic, tag)] && Apart(spawned)
      ensures if err.Nil? then Delivered(spawned, R.Deliveries(R.Subs(broker.View(), dlqTopic), tag),
                                         DlqCopy(msg.View(), reason, stamp, dlqTopic, now))
              else spawned == []
      ensures forall t :: t != dlqTopic ==> AtOrEmpty(broker.contents, t) == AtOrEmpty(old(broker.contents), t)
      ensures msg.View() == old(msg.View())
    {
      hide InMemoryBroker.Valid, Delivered, Apart, R.Deliveries, R.Subs, Annotated, Stamp, AtOrEmpty;
      var dlqMsg := Annotate(msg, reason, stamp);
      ghost var entry := DlqCopy(msg.View(), reason, stamp, dlqTopic, now);
      err, spawned := Append(dlqMsg, now, tag, entry);
      if !err.Nil? {
        err := Wrapped(0, err);
      }
    }

    /** Publish a dead letter that will read as `entry`, and count it. */
    method Append(dlqMsg: Message, now: int, ghost tag: R.Msg, ghost entry: Content)
      returns (err: Error, spawned: seq<Spawn>)
      requires broker.Valid() && this !in broker.Repr
      requires dlqMsg.Footprint() !! broker.Repr && Stamp(dlqMsg.View(), dlqTopic, now) == entry
      modifies this`count, broker`queues, broker`contents, broker`Repr, broker`ops
      ensures broker.Valid() && old(broker.Repr) <= broker.Repr && fresh(broker.Repr - old(broker.Repr))
      ensures err == if broker.connected then Nil else ErrNotConnected
      ensures count == old(count) + (if err.Nil? then 1 else 0)
      ensures AtOrEmpty(broker.contents, dlqTopic)
              == AtOrEmpty(old(broker.contents), dlqTopic) + (if err.Nil? then [entry] else [])
      ensures broker.ops == old(broker.ops) + [R.Publish(dlqTopic, tag)] && Apart(spawned)
      ensures if err.Nil? then Delivered(spawned, R.Deliveries(R.Subs(broker.View(), dlqTopic), tag), entry)
              else spawned == []
      ensures forall t :: t != dlqTopic ==> AtOrEmpty(broker.contents, t) == AtOrEmpty(old(broker.contents), t)
    {
      hide InMemoryBroker.Valid, R.Deliveries, R.Subs, Stamp, AtOrEmpty;
      OneEntry(broker.contents, dlqTopic, entry);
      err, spawned := broker.Publish(dlqTopic, dlqMsg, now, tag);
      if err.Nil? {
        count := count + 1;
      }
    }
  }

  function Entered(l: Ledger, c: Content): Ledger { Ledger(l.queue + [c], l.count + 1) }

  /** Clone, then the three headers. */
  method Annotate(msg: Message, reason: string, stamp: string) returns (dlqMsg: Message)
    ensures fresh(dlqMsg) && fresh(dlqMsg.Footprint())
    ensures dlqMsg.View() == Annotated(msg.View(), reason, stamp)
  {
    hide WithHeader, Message.GetHeader;
    dlqMsg := msg.Clone();
    dlqMsg.SetHeader(REASON, reason);
    dlqMsg.SetHeader(ORIGINAL_TOPIC, msg.topic);
    dlqMsg.SetHeader(TIMESTAMP, stamp);
  }

  /** What one more entry in a topic's queue means for every topic. */
  lemma OneEntry(contents: map<string, seq<Content>>, topic: string, c: Content)
    ensures var contents' := contents[topic := AtOrEmpty(contents, topic) + [c]];
            && AtOrEmpty(contents', topic) == AtOrEmpty(contents, topic) + [c]
            && forall t :: t != topic ==> AtOrEmpty(contents', t) == AtOrEmpty(contents, t)
  {
  }

  // ------------------------------------------------------ retry, then dead letter

  /** What WithRetry around the failing handler reports for one message. */
  function Verdict(env: Env, p: RetryPolicy): (Error, World) { Retried(env, Innermost(env), p)(World([], [], 0)) }

  function FateOf(err: Error, up: bool): Fate {
    if err.Nil? then Handled else if up then DeadLettered else PublishFailed
  }

  /** One message of a stream: its handler's behaviour, and whether the broker is connected when
      its failure, if any, is forwarded. */
  datatype Incoming = Incoming(content: Content, env: Env, up: bool, reason: string, stamp: string, now: int)

  function Fated(m: Incoming, p: RetryPolicy): Fate { FateOf(Verdict(m.env, p).0, m.up) }

  function StreamStep(l: Ledger, m: Incoming, p: RetryPolicy, dlqTopic: string): Ledger {
    if Fated(m, p).DeadLettered? then Entered(l, DlqCopy(m.content, m.reason, m.stamp, dlqTopic, m.now)) else l
  }

  /** The wrapped handler on one message; `m` restates its inputs as values. */
  method RetryThenDeadLetter(dlh: DeadLetterHandler, p: RetryPolicy, msg: Message, ghost tag: R.Msg, m: Incoming)
    returns (err: Error)
    requires dlh.broker.Valid() && dlh !in dlh.broker.Repr
    requires msg.Footprint() !! dlh.broker.Repr
    requires m.content == msg.View() && m.up == dlh.broker.connected
    modifies dlh`count, dlh.broker`queues, dlh.broker`contents, dlh.broker`Repr, dlh.broker`ops
    ensures dlh.broker.Valid() && msg.View() == old(msg.View())
    ensures old(dlh.broker.Repr) <= dlh.broker.Repr && fresh(dlh.broker.Repr - old(dlh.broker.Repr))
    ensures dlh.Books() == StreamStep(old(dlh.Books()), m, p, dlh.dlqTopic)
    ensures !err.Nil? <==> Fated(m, p).PublishFailed?
    ensures var failure := Retried(m.env, Innermost(m.env), p)(World([], [], 0)).0;
            if failure.Nil? then err.Nil? && dlh.Books() == old(dlh.Books()) && dlh.broker.ops == old(dlh.broker.ops)
            else
              && dlh.broker.ops == old(dlh.broker.ops) + [R.Publish(dlh.dlqTopic, tag)]
              && if dlh.broker.connected then
                   && err.Nil? && dlh.count == old(dlh.count) + 1
                   && dlh.Books().queue
                      == old(dlh.Books()).queue + [DlqCopy(old(msg.View()), m.reason, m.stamp, dlh.dlqTopic, m.now)]
                 else !err.Nil? && dlh.Books() == old(dlh.Books())
  {
    hide InMemoryBroker.Valid, Retried, DlqCopy;
    var failure, _ := WithRetry(m.env, Innermost(m.env), Some(p), World([], [], 0));
    if !failure.Nil? {
      var spawned;
      err, spawned := dlh.Handle(msg, failure, m.reason, m.stamp, m.now, tag);
      return;
    }
    err := Nil;
  }

  /** The books after a stream that found them as `l`. */
  function Stream(l: Ledger, ms: seq<Incoming>, p: RetryPolicy, dlqTopic: string): Ledger {
    if ms == [] then l
    else StreamStep(Stream(l, ms[..|ms| - 1], p, dlqTopic), ms[|ms| - 1], p, dlqTopic)
  }

  /** The positions of a stream with the given fate. */
  function Positions(ms: seq<Incoming>, p: RetryPolicy, fate: Fate): (r: seq<nat>)
    ensures forall i :: 0 <= i < |r| ==> r[i] < |ms|
  {
    if ms == [] then []
    else Positions(ms[..|ms| - 1], p, fate) + (if Fated(ms[|ms| - 1], p) == fate then [|ms| - 1] else [])
  }

  function CopyAt(ms: seq<Incoming>, i: nat, dlqTopic: string): Content
    requires i < |ms|
  {
    DlqCopy(ms[i].content, ms[i].reason, ms[i].stamp, dlqTopic, ms[i].now)
  }

  /** Over any stream: the dead letter queue gains exactly one copy of each dead-lettered message, in
      order, Count grows by their number, and the three fates add up to the whole stream. */
  lemma {:induction false} StreamAccountsForEveryMessage(l: Ledger, ms: seq<Incoming>, p: RetryPolicy, dlqTopic: string)
    ensures var l' := Stream(l, ms, p, dlqTopic); var dead := Positions(ms, p, DeadLettered);
            && l'.count == l.count + |dead| && |l'.queue| == |l.queue| + |dead| && l.queue <= l'.queue
            && (forall i :: 0 <= i < |dead| ==> l'.queue[|l.queue| + i] == CopyAt(ms, dead[i], dlqTopic))
            && |Positions(ms, p, Handled)| + |dead| + |Positions(ms, p, PublishFailed)| == |ms|
  {
    if ms != [] {
      var init := ms[..|ms| - 1];
      StreamAccountsForEveryMessage(l, init, p, dlqTopic);
      hide Verdict, DlqCopy;
      var dead := Positions(init, p, DeadLettered);
      forall i | 0 <= i < |dead| ensures CopyAt(ms, dead[i], dlqTopic) == CopyAt(init, dead[i], dlqTopic) {
      }
    }
  }

  lemma {:induction false} PositionsFind(ms: seq<Incoming>, p: RetryPolicy, fate: Fate, i: nat)
    ensures i in Positions(ms, p, fate) <==> i < |ms| && Fated(ms[i], p) == fate
    decreases |ms|
  {
    hide Fated;
    if ms != [] {
      PositionsFind(ms[..|ms| - 1], p, fate, i);
    }
  }

  lemma {:induction false} PositionsAscend(ms: seq<Incoming>, p: RetryPolicy, fate: Fate)
    ensures forall j, k :: 0 <= j < k < |Positions(ms, p, fate)| ==>
              Positions(ms, p, fate)[j] < Positions(ms, p, fate)[k]
  {
    hide Fated;
    if ms != [] {
      PositionsAscend(ms[..|ms| - 1], p, fate);
    }
  }

  /** What the fates are: a message is handled exactly when its retried handler reports success,
      dead-lettered exactly when it does not and the broker is up, failed exactly when it does not and the
      broker is down; `PositionsAscend` lists each position once, in order. */
  lemma FatesMean(ms: seq<Incoming>, p: RetryPolicy, i: nat)
    requires i < |ms|
    ensures var failure := Retried(ms[i].env, Innermost(ms[i].env), p)(World([], [], 0)).0;
            && (i in Positions(ms, p, Handled) <==> failure.Nil?)
            && (i in Positions(ms, p, DeadLettered) <==> !failure.Nil? && ms[i].up)
            && (i in Positions(ms, p, PublishFailed) <==> !failure.Nil? && !ms[i].up)
  {
    hide Positions, Retried;
    PositionsFind(ms, p, Handled, i);
    PositionsFind(ms, p, DeadLettered, i);
    PositionsFind(ms, p, PublishFailed, i);
  }

  /** From position i on: the broker may come up while a stream is processed, but does not go down. */
  ghost predicate UpFrom(ms: seq<Incoming>, i: nat, up: bool) {
    && (forall j :: i <= j < |ms| && up ==> ms[j].up)
    && (forall j, k :: i <= j < k < |ms| && ms[j].up ==> ms[k].up)
  }

  lemma UpNow(ms: seq<Incoming>, i: nat, up: bool)
    requires UpFrom(ms, i, up) && i < |ms|
    ensures up ==> ms[i].up
    ensures UpFrom(ms, i + 1, ms[i].up)
  {
  }

  /** The messages of a stream, and what they say. */
  ghost predicate Says(msgs: seq<Message>, ms: seq<Incoming>, repr: set<object>)
    reads set i | 0 <= i < |msgs| :: msgs[i],
          set i | 0 <= i < |msgs| :: msgs[i].key,
          set i | 0 <= i < |msgs| :: msgs[i].value,
          set i | 0 <= i < |msgs| :: msgs[i].headers
  {
    |msgs| == |ms| && forall i :: 0 <= i < |msgs| ==> msgs[i].View() == ms[i].content && msgs[i].Footprint() !! repr
  }

  /** A whole stream through the wrapped handler: queue and counter end up as the specification says,
      the i-th call fails exactly when its dead letter could not be published, and no message changes. */
  method ProcessStream(dlh: DeadLetterHandler, p: RetryPolicy, msgs: seq<Message>, ms: seq<Incoming>,
                       ghost tag: nat -> R.Msg)
    returns (errs: seq<Error>)
    requires dlh.broker.Valid() && dlh !in dlh.broker.Repr
    requires Says(msgs, ms, dlh.broker.Repr) && UpFrom(ms, 0, dlh.broker.connected)
    modifies dlh`count, dlh.broker`queues, dlh.broker`contents, dlh.broker`Repr, dlh.broker`ops, dlh.broker`connected
    ensures dlh.broker.Valid() && Says(msgs, ms, dlh.broker.Repr)
    ensures dlh.Books() == Stream(old(dlh.Books()), ms, p, dlh.dlqTopic)
    ensures |errs| == |ms|
    ensures forall i :: 0 <= i < |ms| ==>
              (errs[i].Nil? <==> Retried(ms[i].env, Innermost(ms[i].env), p)(World([], [], 0)).0.Nil? || ms[i].up)
  {
    hide InMemoryBroker.Valid, Fated, StreamStep, Says, UpFrom, Retried;
    errs := [];
    ghost var books := dlh.Books();
    for i := 0 to |ms|
      invariant dlh.broker.Valid() && dlh !in dlh.broker.Repr
      invariant Says(msgs, ms, dlh.broker.Repr) && UpFrom(ms, i, dlh.broker.connected)
      invariant dlh.Books() == Stream(books, ms[..i], p, dlh.dlqTopic)
      invariant |errs| == i
      invariant forall j :: 0 <= j < i ==>
                  (errs[j].Nil? <==> Retried(ms[j].env, Innermost(ms[j].env), p)(World([], [], 0)).0.Nil? || ms[j].up)
    {
      var err := ProcessOne(dlh, p, msgs, ms, i, tag(i));
      errs := errs + [err];
      assert ms[..i + 1][..i] == ms[..i];
    }
    assert ms[..|ms|] == ms;
  }

  /** One message of the stream. */
  method ProcessOne(dlh: DeadLetterHandler, p: RetryPolicy, msgs: seq<Message>, ms: seq<Incoming>, i: nat,
                    ghost tag: R.Msg)
    returns (err: Error)
    requires dlh.broker.Valid() && dlh !in dlh.broker.Repr && i < |ms|
    requires Says(msgs, ms, dlh.broker.Repr) && UpFrom(ms, i, dlh.broker.connected)
    modifies dlh`count, dlh.broker`queues, dlh.broker`contents, dlh.broker`Repr, dlh.broker`ops, dlh.broker`connected
    ensures dlh.broker.Valid() && dlh !in dlh.broker.Repr
    ensures Says(msgs, ms, dlh.broker.Repr) && UpFrom(ms, i + 1, dlh.broker.connected)
    ensures dlh.Books() == StreamStep(old(dlh.Books()), ms[i], p, dlh.dlqTopic)
    ensures err.Nil? <==> Retried(ms[i].env, Innermost(ms[i].env), p)(World([], [], 0)).0.Nil? || ms[i].up
  {
    hide InMemoryBroker.Valid, Fated, StreamStep, UpFrom, AtOrEmpty, Retried;
    UpNow(ms, i, dlh.broker.connected);
    if ms[i].up && !dlh.broker.connected {
      dlh.broker.Connect();
    }
    err := RetryOne(dlh, p, msgs, ms, i, tag);
  }

  /** One message of the stream, the broker being up or down as it says. */
  method RetryOne(dlh: DeadLetterHandler, p: RetryPolicy, msgs: seq<Message>, ms: seq<Incoming>, i: nat,
                  ghost tag: R.Msg)
    returns (err: Error)
    requires dlh.broker.Valid() && dlh !in dlh.broker.Repr && i < |ms|
    requires Says(msgs, ms, dlh.broker.Repr) && ms[i].up == dlh.broker.connected
    modifies dlh`count, dlh.broker`queues, dlh.broker`contents, dlh.broker`Repr, dlh.broker`ops
    ensures dlh.broker.Valid() && dlh !in dlh.broker.Repr && Says(msgs, ms, dlh.broker.Repr)
    ensures dlh.Books() == StreamStep(old(dlh.Books()), ms[i], p, dlh.dlqTopic)
    ensures err.Nil? <==> Retried(ms[i].env, Innermost(ms[i].env), p)(World([], [], 0)).0.Nil? || ms[i].up
  {
    hide InMemoryBroker.Valid, Fated, StreamStep, AtOrEmpty, Retried, DlqCopy;
    err := RetryThenDeadLetter(dlh, p, msgs[i], tag, ms[i]);
  }

  /** With a non-negative limit, a message whose fate is Handled had a final call of its handler that
      returned nil, cancellation or not. */
  lemma HandledMeansSucceeded(m: Incoming, p: RetryPolicy)
    requires p.maxRetries >= 0 && !m.env.ctxErr.Nil? && Fated(m, p).Handled?
    ensures var log := Retried(m.env, Innermost(m.env), p)(World([], [], 0)).1.log;
            log != [] && log[|log| - 1].Nil?
  {
    var w := World([], [], 0);
    CancellationYieldsPrefix(m.env, p, w);
    var calls := RetryExact(Uncancelled(m.env), p, w);
    assert Verdict(m.env, p) == Retried(Uncancelled(m.env), Innermost(m.env), p)(w);
    SameInnermost(m.env, p, w, 0, Nil);
  }

  /** Nothing is silently lost - every message whose fate is Handled had a final handler call that
      returned nil - exactly when the retry limit is not negative. */
  lemma NothingLostIffLimitNonNegative(p: RetryPolicy)
    ensures (forall m: Incoming {:trigger Fated(m, p)} ::
               !m.env.ctxErr.Nil? && Fated(m, p).Handled? ==>
                 var log := Retried(m.env, Innermost(m.env), p)(World([], [], 0)).1.log;
                 log != [] && log[|log| - 1].Nil?)
            <==> p.maxRetries >= 0
  {
    if p.maxRetries >= 0 {
      forall m: Incoming | !m.env.ctxErr.Nil? && Fated(m, p).Handled?
        ensures var log := Retried(m.env, Innermost(m.env), p)(World([], [], 0)).1.log;
                log != [] && log[|log| - 1].Nil?
      {
        HandledMeansSucceeded(m, p);
      }
    } else {
      var failing := Env(k => ErrNotConnected, k => false, ErrNotConnected);
      var m := Incoming(Content("", "", [], [], None, 0), failing, true, "", "", 0);
      assert Verdict(failing, p) == (Nil, World([], [], 0));
      assert Fated(m, p).Handled?;
    }
  }
}
