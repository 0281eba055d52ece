/** The in-memory broker on the heap (pkg/broker/inmemory.go): its table is Registry's, its queues
    own every object reachable from them, and what it delivers belongs to the receiver. */
module InMemory {
  import opened Errors
  import opened Messages
  import R = Registry

  /** A goroutine `handler(ctx, msg)` started by Publish. */
  datatype Spawn = Spawn(id: nat, handler: R.HandlerId, msg: Message)

  /** The copy as queued: everything kept but the topic and the time, which are the publish's. */
  function Stamp(c: Content, topic: string, now: int): (r: Content)
    ensures r == Content(c.id, topic, c.key, c.value, c.headers, now)
  {
    c.(topic := topic, timestamp := now)
  }

  class InMemorySub {
    const id: nat
    const topic: string
    const broker: InMemoryBroker
    var active: bool

    constructor (id: nat, topic: string, broker: InMemoryBroker)
      ensures this.id == id && this.topic == topic && this.broker == broker && active
    {
      this.id, this.topic, this.broker, this.active := id, topic, broker, true;
    }

    method Unsubscribe()
      requires broker.Valid() && id < |broker.issued| && broker.issued[id] == this
      modifies this, broker
      ensures broker.Valid() && broker.ops == old(broker.ops) + [R.UnsubscribeHandle(id)]
      ensures broker.issued == old(broker.issued) && !active
      ensures broker.queues == old(broker.queues) && broker.contents == old(broker.contents)
      ensures broker.Repr == old(broker.Repr)
    {
      hide Isolated, R.Run, R.Deactivate;
      broker.Record(R.UnsubscribeHandle(id));
      if !active {
        return;
      }
      active := false;
      broker.handles := broker.handles[id := R.Handle(topic, false)];
      if topic in broker.subscribers {
        var subs := broker.subscribers[topic];
        var i := 0;
        while i < |subs| && subs[i].id != id
          invariant 0 <= i <= |subs|
          invariant forall j :: 0 <= j < i ==> subs[j].id != id
        {
          i := i + 1;
        }
        DeactivateIs(subs, id, i);
        if i < |subs| {
          subs := subs[i := subs[i].(active := false)];
        }
        broker.subscribers := broker.subscribers[topic := subs];
      }
    }
  }

  lemma {:induction false} DeactivateIs(subs: seq<R.SubscriberInfo>, id: nat, i: nat)
    requires i <= |subs| && forall j :: 0 <= j < i ==> subs[j].id != id
    requires i < |subs| ==> subs[i].id == id
    ensures R.Deactivate(subs, id) == if i < |subs| then subs[i := subs[i].(active := false)] else subs
  {
    if i > 0 {
      DeactivateIs(subs[1..], id, i - 1);
    }
  }

  class InMemoryBroker {
    var queues: map<string, seq<Message>>
    var subscribers: map<string, seq<R.SubscriberInfo>>
    var connected: bool
    var stopClosed: bool
    /** Stands for `uuid.New()`: the next unused id. */
    var nextId: nat
    /** The handles given out, the operations so far, what each queued message said when it was
        published, and the objects the queues own. */
    ghost var issued: seq<InMemorySub>
    ghost var handles: seq<R.Handle>
    ghost var ops: seq<R.Op>
    ghost var contents: map<string, seq<Content>>
    ghost var Repr: set<object>

    ghost function View(): R.Registry
      reads this
    {
      R.Registry(connected, stopClosed, subscribers, handles)
    }

    ghost predicate Valid()
      reads this, Repr, issued
    {
      && this !in Repr
      && Isolated(queues, contents, Repr)
      && HandlesOk(issued, handles, this, Repr)
      && nextId == |issued|
      && View() == R.Run(ops).0
    }

    constructor ()
      ensures Valid() && ops == [] && Repr == {} && issued == []
    {
      queues, subscribers, connected, stopClosed, nextId := map[], map[], false, false, 0;
      issued, handles, ops, contents, Repr := [], [], [], map[], {};
    }

    ghost method Record(op: R.Op)
      modifies this`ops
      ensures ops == old(ops) + [op]
      ensures R.Run(ops).0 == R.Step(R.Run(old(ops)).0, op).0
    {
      assert (ops + [op])[..|ops|] == ops;
      ops := ops + [op];
    }

    method Connect()
      requires Valid()
      modifies this`connected, this`ops
      ensures Valid() && ops == old(ops) + [R.Connect] && connected
    {
      hide Isolated, HandlesOk, R.Run, R.Deliveries, R.Subs;
      connected := true;
      Record(R.Connect);
    }

    /** A second close of the stop channel panics and changes nothing. */
    method Close() returns (panicked: bool)
      requires Valid()
      modifies this
      ensures Valid() && ops == old(ops) + [R.Close] && issued == old(issued) && Repr == old(Repr)
      ensures panicked == (old(connected) && old(stopClosed))
      ensures stopClosed == (old(stopClosed) || old(connected))
      ensures old(connected) && !panicked ==> subscribers == map[]
      ensures old(connected) && !panicked ==> queues == map[] && contents == map[] && !connected
      ensures !old(connected) || panicked ==> queues == old(queues) && contents == old(contents)
    {
      hide R.Run, R.Deliveries, R.Subs;
      Record(R.Close);
      panicked := connected && stopClosed;
      if !connected || panicked {
        return;
      }
      stopClosed, connected := true, false;
      queues, contents := map[], map[];
      subscribers := map[];
    }

    method Subscribe(topic: string, handler: R.HandlerId) returns (err: Error, sub: InMemorySub?)
      requires Valid()
      modifies this`subscribers, this`nextId, this`issued, this`handles, this`ops
      ensures Valid() && ops == old(ops) + [R.Subscribe(topic, handler)]
      ensures err == if connected then Nil else ErrNotConnected
      ensures !connected ==> sub == null && issued == old(issued) && subscribers == old(subscribers)
      ensures connected ==> subscribers == old(subscribers)[topic :=
                AtOrEmpty(old(subscribers), topic) + [R.SubscriberInfo(|old(issued)|, handler, true)]]
      ensures connected ==> sub != null && fresh(sub) && issued == old(issued) + [sub]
                            && sub.id == |old(issued)| && sub.topic == topic && sub.active
    {
      hide Isolated, R.Run, R.Deliveries, HandlesOk;
      Record(R.Subscribe(topic, handler));
      if !connected {
        return ErrNotConnected, null;
      }
      var id := nextId;
      nextId := nextId + 1;
      subscribers := subscribers[topic := (if topic in subscribers then subscribers[topic] else [])
                                          + [R.SubscriberInfo(id, handler, true)]];
      HandlesCount(issued, handles, this, Repr);
      sub := new InMemorySub(id, topic, this);
      HandlesMore(issued, handles, this, Repr, sub);
      issued, handles := issued + [sub], handles + [R.Handle(topic, true)];
      err := Nil;
    }

    /** The topic-wide unsubscribe forgets the topic's whole entry. */
    method Unsubscribe(topic: string)
      requires Valid()
      modifies this`subscribers, this`ops
      ensures Valid() && ops == old(ops) + [R.UnsubscribeTopic(topic)] && subscribers == old(subscribers) - {topic}
    {
      hide Isolated, R.Run, R.Deliveries;
      Record(R.UnsubscribeTopic(topic));
      if topic in subscribers {
        var subs := subscribers[topic];
        for i := 0 to |subs|
          invariant |subs| == |old(subscribers)[topic]| && subscribers == old(subscribers)[topic := subs]
          modifies this`subscribers
        {
          subs := subs[i := subs[i].(active := false)];
          subscribers := subscribers[topic := subs];
        }
        subscribers := subscribers - {topic};
      }
    }

    /** The queue gets its own deep copy; each active subscriber gets another. */
    method Publish(topic: string, msg: Message, now: int, ghost tag: R.Msg) returns (err: Error, spawned: seq<Spawn>)
      requires Valid() && msg.Footprint() !! Repr
      modifies this`queues, this`contents, this`Repr, this`ops
      ensures Valid() && ops == old(ops) + [R.Publish(topic, tag)] && msg.Footprint() !! Repr
      ensures err == if connected then Nil else ErrNotConnected
      ensures !connected ==> spawned == [] && queues == old(queues) && contents == old(contents) && Repr == old(Repr)
      ensures connected ==>
                && contents == old(contents)[topic := AtOrEmpty(old(contents), topic) + [Stamp(msg.View(), topic, now)]]
                && old(Repr) <= Repr && fresh(Repr - old(Repr))
                && Delivered(spawned, R.Deliveries(R.Subs(View(), topic), tag), Stamp(msg.View(), topic, now))
      ensures forall i :: 0 <= i < |spawned| ==> fresh(spawned[i].msg.Footprint()) && spawned[i].msg.Footprint() !! Repr
      ensures Apart(spawned)
    {
      hide Valid, R.Deliveries, Delivered, Stamp, AtOrEmpty;
      if !connected {
        Refuse(topic, tag);
        return ErrNotConnected, [];
      }
      err := Nil;
      var clone := Store(topic, msg, now, tag);
      spawned := SpawnAll(if topic in subscribers then subscribers[topic] else [], clone, tag);
    }

    ghost method Refuse(topic: string, tag: R.Msg)
      requires Valid() && !connected
      modifies this`ops
      ensures Valid() && ops == old(ops) + [R.Publish(topic, tag)]
    {
      hide Isolated, HandlesOk, R.Run, R.Deliveries;
      Record(R.Publish(topic, tag));
    }

    /** `PublishBatch`: one Publish after another, stopping at the first error. `spawned` is every
        goroutine started, in order; `views` restates what the messages say. */
    method PublishBatch(topic: string, msgs: seq<Message>, ghost views: seq<Content>, now: nat -> int,
                        ghost tag: nat -> R.Msg)
      returns (err: Error, spawned: seq<Spawn>)
      requires Valid() && |views| == |msgs|
      requires forall i :: 0 <= i < |msgs| ==>
                 msgs[i].Footprint() !! Repr && msgs[i].View() == views[i]
      modifies this`queues, this`contents, this`Repr, this`ops
      ensures Valid() && old(Repr) <= Repr && fresh(Repr - old(Repr))
      ensures err == if connected || msgs == [] then Nil else ErrNotConnected
      ensures ops == old(ops) + Publishes(topic, tag, if connected || msgs == [] then |msgs| else 1)
      ensures contents == if connected then AppendEach(old(contents), topic, Stamped(views, topic, now))
                          else old(contents)
      ensures var n := if connected then |msgs| else 0; var subs := R.Subs(View(), topic);
              SpawnedAs(spawned, BatchDeliveries(subs, tag, n), BatchCopies(subs, tag, Stamped(views, topic, now), n))
      ensures Apart(spawned)
    {
      hide Valid, SpawnedAs, Apart, Stamp, Stamped, R.Deliveries, R.Subs, AppendEach, AtOrEmpty, Batched;
      hide BatchDeliveries, BatchCopies, Repeat;
      ghost var subs := R.Subs(View(), topic);
      ghost var ds: seq<R.Delivery>, cs: seq<Content> := [], [];
      spawned := [];
      BatchedNone(topic, views, now, tag, subs, ops, contents);
      for i := 0 to |msgs|
        invariant Valid() && old(Repr) <= Repr && fresh(Repr - old(Repr))
        invariant if i > 0 then connected else ops == old(ops) && contents == old(contents) && spawned == []
        invariant Batched(i, topic, views, now, tag, subs, old(ops), old(contents), ops, contents, ds, cs)
        invariant SpawnedAs(spawned, ds, cs) && Apart(spawned)
      {
        var e, started;
        e, started, ds, cs :=
          BatchStep(topic, msgs[i], views, now, tag, i, subs, old(ops), old(contents), spawned, ds, cs);
        if !e.Nil? {
          return e, spawned;
        }
        spawned := spawned + started;
      }
      BatchedEnds(|msgs|, topic, views, now, tag, subs, old(ops), old(contents), ops, contents, ds, cs);
      err := Nil;
    }

    /** The i-th Publish of a batch. */
    method BatchStep(topic: string, msg: Message, ghost views: seq<Content>, now: nat -> int, ghost tag: nat -> R.Msg,
                     i: nat, ghost subs: seq<R.SubscriberInfo>, ghost ops0: seq<R.Op>,
                     ghost contents0: map<string, seq<Content>>,
                     ghost before: seq<Spawn>, ghost ds: seq<R.Delivery>, ghost cs: seq<Content>)
      returns (err: Error, spawned: seq<Spawn>, ghost ds': seq<R.Delivery>, ghost cs': seq<Content>)
      requires Valid() && i < |views| && msg.Footprint() !! Repr && msg.View() == views[i]
      requires subs == R.Subs(View(), topic) && SpawnedAs(before, ds, cs) && Apart(before)
      requires Batched(i, topic, views, now, tag, subs, ops0, contents0, ops, contents, ds, cs)
      modifies this`queues, this`contents, this`Repr, this`ops
      ensures Valid() && ops == old(ops) + [R.Publish(topic, tag(i))] && old(Repr) <= Repr && fresh(Repr - old(Repr))
      ensures err == if connected then Nil else ErrNotConnected
      ensures !connected ==> spawned == [] && contents == old(contents)
      ensures connected ==>
                && Batched(i + 1, topic, views, now, tag, subs, ops0, contents0, ops, contents, ds', cs')
                && SpawnedAs(before + spawned, ds', cs')
      ensures Apart(before + spawned)
    {
      hide Valid, SpawnedAs, Apart, Stamp, Stamped, R.Deliveries, R.Subs, AppendEach, AtOrEmpty, Batched, Repeat;
      BatchedMore(i, topic, views, now, tag, subs, ops0, contents0, ops, contents, ds, cs);
      ghost var more := R.Deliveries(subs, tag(i));
      ds', cs' := ds + more, cs + Repeat(Stamp(views[i], topic, now(i)), |more|);
      err, spawned := Next(topic, msg, now(i), tag(i), before, ds, cs);
    }

    /** One Publish of a batch, after goroutines started earlier. */
    method Next(topic: string, msg: Message, now: int, ghost tag: R.Msg,
                ghost before: seq<Spawn>, ghost ds: seq<R.Delivery>, ghost cs: seq<Content>)
      returns (err: Error, spawned: seq<Spawn>)
      requires Valid() && msg.Footprint() !! Repr && SpawnedAs(before, ds, cs) && Apart(before)
      modifies this`queues, this`contents, this`Repr, this`ops
      ensures Valid() && ops == old(ops) + [R.Publish(topic, tag)] && old(Repr) <= Repr && fresh(Repr - old(Repr))
      ensures err == if connected then Nil else ErrNotConnected
      ensures !connected ==> spawned == [] && contents == old(contents)
      ensures connected ==>
                && contents == old(contents)[topic := AtOrEmpty(old(contents), topic) + [Stamp(msg.View(), topic, now)]]
                && var more := R.Deliveries(R.Subs(View(), topic), tag);
                   SpawnedAs(before + spawned, ds + more, cs + Repeat(Stamp(msg.View(), topic, now), |more|))
      ensures Apart(before + spawned)
    {
      hide Valid, AtOrEmpty, R.Deliveries, R.Subs, Stamp, Apart, Delivered, Repeat;
      err, spawned := PublishApart(topic, msg, now, tag, before);
      if err.Nil? {
        SpawnedMore(before, ds, cs, spawned, R.Deliveries(R.Subs(View(), topic), tag), Stamp(msg.View(), topic, now));
      } else {
        assert before + [] == before;
      }
    }

    /** A Publish whose copies share nothing with earlier ones. */
    method PublishApart(topic: string, msg: Message, now: int, ghost tag: R.Msg, ghost before: seq<Spawn>)
      returns (err: Error, spawned: seq<Spawn>)
      requires Valid() && msg.Footprint() !! Repr && Apart(before)
      modifies this`queues, this`contents, this`Repr, this`ops
      ensures Valid() && ops == old(ops) + [R.Publish(topic, tag)] && old(Repr) <= Repr && fresh(Repr - old(Repr))
      ensures err == if connected then Nil else ErrNotConnected
      ensures !connected ==> spawned == [] && contents == old(contents)
      ensures connected ==>
                && contents == old(contents)[topic := AtOrEmpty(old(contents), topic) + [Stamp(msg.View(), topic, now)]]
                && Delivered(spawned, R.Deliveries(R.Subs(View(), topic), tag), Stamp(msg.View(), topic, now))
      ensures Apart(before + spawned)
    {
      hide Valid, AtOrEmpty, R.Deliveries, R.Subs, Stamp, Apart, Delivered;
      ApartPairs(before);
      err, spawned := Publish(topic, msg, now, tag);
      PairsApart(before);
      ApartMore(before, spawned);
    }

    /** The stored copy. */
    method Store(topic: string, msg: Message, now: int, ghost tag: R.Msg) returns (clone: Message)
      requires Valid() && connected
      modifies this`queues, this`contents, this`Repr, this`ops
      ensures Valid() && ops == old(ops) + [R.Publish(topic, tag)]
      ensures contents == old(contents)[topic := AtOrEmpty(old(contents), topic) + [clone.View()]]
      ensures queues == old(queues)[topic := AtOrEmpty(old(queues), topic) + [clone]]
      ensures clone.View() == Stamp(msg.View(), topic, now)
      ensures Repr == old(Repr) + clone.Footprint() && fresh(clone.Footprint())
    {
      hide Owned, Disjoint, Faithful, Isolated, HandlesOk, R.Run, R.Deliveries, AtOrEmpty, Stamp, R.Subs;
      clone := Restamp(msg, topic, now);
      Record(R.Publish(topic, tag));
      Enqueue(topic, clone);
    }

    method Enqueue(topic: string, m: Message)
      requires this !in Repr && Isolated(queues, contents, Repr) && HandlesOk(issued, handles, this, Repr)
      requires m.Footprint() !! Repr
      modifies this`queues, this`contents, this`Repr
      ensures this !in Repr && Isolated(queues, contents, Repr) && HandlesOk(issued, handles, this, Repr)
      ensures contents == old(contents)[topic := AtOrEmpty(old(contents), topic) + [m.View()]]
      ensures queues == old(queues)[topic := AtOrEmpty(old(queues), topic) + [m]]
      ensures Repr == old(Repr) + m.Footprint() && m.View() == old(m.View()) && m.Footprint() == old(m.Footprint())
    {
      hide Owned, Disjoint, Faithful;
      EnqueueIsolated(queues, contents, Repr, topic, m);
      hide Isolated;
      queues, contents, Repr :=
        queues[topic := AtOrEmpty(queues, topic) + [m]],
        contents[topic := AtOrEmpty(contents, topic) + [m.View()]],
        Repr + m.Footprint();
    }
  }

  /** Clone, then set topic and timestamp. */
  method Restamp(msg: Message, topic: string, now: int) returns (clone: Message)
    ensures fresh(clone) && fresh(clone.Footprint())
    ensures clone.View() == Stamp(msg.View(), topic, now)
  {
    clone := msg.Clone();
    clone.topic := topic;
    clone.timestamp := now;
  }

  /** The delivery loop: a fresh copy for each active entry, in table order. */
  method SpawnAll(subs: seq<R.SubscriberInfo>, m: Message, ghost tag: R.Msg) returns (spawned: seq<Spawn>)
    ensures Delivered(spawned, R.Deliveries(subs, tag), m.View())
    ensures forall i :: 0 <= i < |spawned| ==> fresh(spawned[i].msg) && fresh(spawned[i].msg.Footprint())
    ensures Apart(spawned)
  {
    hide R.Deliveries, Apart, Delivered;
    spawned := [];
    NoSpawns(m.View(), tag);
    for i := 0 to |subs|
      invariant Delivered(spawned, R.Deliveries(subs[..i], tag), m.View()) && Apart(spawned)
      invariant forall j :: 0 <= j < |spawned| ==> fresh(spawned[j].msg) && fresh(spawned[j].msg.Footprint())
    {
      DeliveriesMore(subs, i, tag);
      if subs[i].active {
        var s := SpawnOne(spawned, subs[i], m, R.Deliveries(subs[..i], tag), tag);
        spawned := spawned + [s];
      } else {
        assert R.Deliveries(subs[..i], tag) + [] == R.Deliveries(subs[..i], tag);
      }
    }
    assert subs[..|subs|] == subs;
  }

  /** One goroutine more, with a copy of its own. */
  method SpawnOne(ghost before: seq<Spawn>, sub: R.SubscriberInfo, m: Message,
                  ghost ds: seq<R.Delivery>, ghost tag: R.Msg)
    returns (s: Spawn)
    requires Delivered(before, ds, m.View()) && Apart(before)
    ensures Delivered(before + [s], ds + [R.Delivery(sub.id, sub.handler, tag)], m.View()) && Apart(before + [s])
    ensures fresh(s.msg) && fresh(s.msg.Footprint())
    ensures forall j :: 0 <= j < |before| ==> before[j].msg.Footprint() == old(before[j].msg.Footprint())
  {
    hide Apart;
    ApartPairs(before);
    var copy := m.Clone();
    s := Spawn(sub.id, sub.handler, copy);
    PairsApart(before + [s]);
  }

  lemma NoSpawns(c: Content, tag: R.Msg)
    ensures Delivered([], R.Deliveries([], tag), c) && Apart([])
  {
  }

  lemma DeliveriesMore(subs: seq<R.SubscriberInfo>, i: nat, tag: R.Msg)
    requires i < |subs|
    ensures R.Deliveries(subs[..i + 1], tag)
            == R.Deliveries(subs[..i], tag)
               + if subs[i].active then [R.Delivery(subs[i].id, subs[i].handler, tag)] else []
  {
    assert subs[..i + 1][..i] == subs[..i];
  }

  /** Position i of topic t's queue. */
  ghost predicate At(queues: map<string, seq<Message>>, t: string, i: int) {
    t in queues && 0 <= i < |queues[t]|
  }

  /** The queues own the parts of their messages. */
  ghost predicate Owned(queues: map<string, seq<Message>>, repr: set<object>)
    reads repr
  {
    forall t, i :: At(queues, t, i) ==> queues[t][i] in repr && queues[t][i].Footprint() <= repr
  }

  /** No two queued messages share a part. */
  ghost predicate Disjoint(queues: map<string, seq<Message>>, repr: set<object>)
    requires Owned(queues, repr)
    reads repr
  {
    forall t, i, u, j :: At(queues, t, i) && At(queues, u, j) && (t != u || i != j) ==>
      queues[t][i].Footprint() !! queues[u][j].Footprint()
  }

  /** Every queued message says what it said when it was published. */
  ghost predicate Faithful(queues: map<string, seq<Message>>, contents: map<string, seq<Content>>, repr: set<object>)
    requires Owned(queues, repr)
    reads repr
  {
    && contents.Keys == queues.Keys
    && (forall t :: t in queues ==> |contents[t]| == |queues[t]|)
    && (forall t, i :: At(queues, t, i) ==> queues[t][i].View() == contents[t][i])
  }

  ghost predicate Isolated(queues: map<string, seq<Message>>, contents: map<string, seq<Content>>, repr: set<object>)
    reads repr
  {
    Owned(queues, repr) && Disjoint(queues, repr) && Faithful(queues, contents, repr)
  }

  ghost predicate HandlesOk(issued: seq<InMemorySub>, handles: seq<R.Handle>, owner: InMemoryBroker, repr: set<object>)
    reads issued
  {
    && |handles| == |issued|
    && forall i :: 0 <= i < |issued| ==>
         && issued[i].id == i && issued[i].broker == owner
         && handles[i] == R.Handle(issued[i].topic, issued[i].active)
         && issued[i] !in repr
  }

  lemma HandlesCount(issued: seq<InMemorySub>, handles: seq<R.Handle>, owner: InMemoryBroker, repr: set<object>)
    requires HandlesOk(issued, handles, owner, repr)
    ensures |handles| == |issued|
  {
  }

  lemma HandlesMore(issued: seq<InMemorySub>, handles: seq<R.Handle>, owner: InMemoryBroker, repr: set<object>,
                    sub: InMemorySub)
    requires HandlesOk(issued, handles, owner, repr)
    requires sub.id == |issued| && sub.broker == owner && sub !in repr
    ensures HandlesOk(issued + [sub], handles + [R.Handle(sub.topic, sub.active)], owner, repr)
  {
  }

  /** Appending a message nobody shares keeps the queues isolated. */
  lemma EnqueueIsolated(queues: map<string, seq<Message>>, contents: map<string, seq<Content>>, repr: set<object>,
                        topic: string, m: Message)
    requires Isolated(queues, contents, repr) && m.Footprint() !! repr
    ensures Isolated(queues[topic := AtOrEmpty(queues, topic) + [m]],
                     contents[topic := AtOrEmpty(contents, topic) + [m.View()]],
                     repr + m.Footprint())
  {
    var queues', repr' := queues[topic := AtOrEmpty(queues, topic) + [m]], repr + m.Footprint();
    EnqueueOwned(queues, repr, topic, m);
    EnqueueDisjoint(queues, repr, topic, m);
    EnqueueFaithful(queues, contents, repr, topic, m);
  }

  lemma EnqueueOwned(queues: map<string, seq<Message>>, repr: set<object>, topic: string, m: Message)
    requires Owned(queues, repr)
    ensures Owned(queues[topic := AtOrEmpty(queues, topic) + [m]], repr + m.Footprint())
  {
    var queues' := queues[topic := AtOrEmpty(queues, topic) + [m]];
    forall t, i | At(queues', t, i) ensures queues'[t][i] == m || (At(queues, t, i) && queues'[t][i] == queues[t][i]) {
    }
  }

  lemma EnqueueDisjoint(queues: map<string, seq<Message>>, repr: set<object>, topic: string, m: Message)
    requires Owned(queues, repr) && Disjoint(queues, repr) && m.Footprint() !! repr
    requires Owned(queues[topic := AtOrEmpty(queues, topic) + [m]], repr + m.Footprint())
    ensures Disjoint(queues[topic := AtOrEmpty(queues, topic) + [m]], repr + m.Footprint())
  {
    var queues', last := queues[topic := AtOrEmpty(queues, topic) + [m]], |AtOrEmpty(queues, topic)|;
    forall t, i | At(queues', t, i) && (t != topic || i != last)
      ensures At(queues, t, i) && queues'[t][i] == queues[t][i] && queues[t][i].Footprint() <= repr
    {
    }
    assert queues'[topic][last] == m;
  }

  lemma EnqueueFaithful(queues: map<string, seq<Message>>, contents: map<string, seq<Content>>, repr: set<object>,
                        topic: string, m: Message)
    requires Owned(queues, repr) && Faithful(queues, contents, repr)
    requires Owned(queues[topic := AtOrEmpty(queues, topic) + [m]], repr + m.Footprint())
    ensures Faithful(queues[topic := AtOrEmpty(queues, topic) + [m]],
                     contents[topic := AtOrEmpty(contents, topic) + [m.View()]], repr + m.Footprint())
  {
    var queues', last := queues[topic := AtOrEmpty(queues, topic) + [m]], |AtOrEmpty(queues, topic)|;
    forall t, i | At(queues', t, i) && (t != topic || i != last)
      ensures At(queues, t, i) && queues'[t][i] == queues[t][i]
    {
    }
  }

  function AtOrEmpty<T>(m: map<string, seq<T>>, topic: string): seq<T> { if topic in m then m[topic] else [] }

  function AppendEach<T>(m: map<string, seq<T>>, topic: string, xs: seq<T>): map<string, seq<T>> {
    if xs == [] then m else m[topic := AtOrEmpty(m, topic) + xs]
  }

  function Stamped(cs: seq<Content>, topic: string, now: nat -> int): (r: seq<Content>)
    ensures |r| == |cs| && forall i :: 0 <= i < |cs| ==> r[i] == Stamp(cs[i], topic, now(i))
  {
    seq(|cs|, i requires 0 <= i < |cs| => Stamp(cs[i], topic, now(i)))
  }

  /** The first n Publishes of a batch. */
  ghost function Publishes(topic: string, tag: nat -> R.Msg, n: nat): (r: seq<R.Op>)
    ensures |r| == n && forall i :: 0 <= i < n ==> r[i] == R.Publish(topic, tag(i))
  {
    if n == 0 then [] else Publishes(topic, tag, n - 1) + [R.Publish(topic, tag(n - 1))]
  }

  /** The deliveries of the first n Publishes of a batch, in the order they are started. */
  ghost function BatchDeliveries(subs: seq<R.SubscriberInfo>, tag: nat -> R.Msg, n: nat): seq<R.Delivery> {
    if n == 0 then [] else BatchDeliveries(subs, tag, n - 1) + R.Deliveries(subs, tag(n - 1))
  }

  /** And what each of their copies says. */
  ghost function BatchCopies(subs: seq<R.SubscriberInfo>, tag: nat -> R.Msg, stamped: seq<Content>, n: nat)
    : seq<Content>
    requires n <= |stamped|
  {
    if n == 0 then []
    else BatchCopies(subs, tag, stamped, n - 1) + Repeat(stamped[n - 1], |R.Deliveries(subs, tag(n - 1))|)
  }

  function Repeat<T>(x: T, n: nat): (r: seq<T>)
    ensures |r| == n && forall i :: 0 <= i < n ==> r[i] == x
  {
    if n == 0 then [] else Repeat(x, n - 1) + [x]
  }

  lemma ApartPairs(spawned: seq<Spawn>)
    requires Apart(spawned)
    ensures forall i, j :: 0 <= i < j < |spawned| ==> spawned[i].msg.Footprint() !! spawned[j].msg.Footprint()
  {
  }

  lemma PairsApart(spawned: seq<Spawn>)
    requires forall i, j :: 0 <= i < j < |spawned| ==> spawned[i].msg.Footprint() !! spawned[j].msg.Footprint()
    ensures Apart(spawned)
  {
  }

  lemma ApartMore(before: seq<Spawn>, spawned: seq<Spawn>)
    requires Apart(before) && Apart(spawned)
    requires forall i, j :: 0 <= i < |before| && 0 <= j < |spawned| ==>
               before[i].msg.Footprint() !! spawned[j].msg.Footprint()
    ensures Apart(before + spawned)
  {
  }

  lemma SpawnedMore(before: seq<Spawn>, ds: seq<R.Delivery>, cs: seq<Content>,
                    spawned: seq<Spawn>, more: seq<R.Delivery>, c: Content)
    requires SpawnedAs(before, ds, cs) && Delivered(spawned, more, c)
    ensures SpawnedAs(before + spawned, ds + more, cs + Repeat(c, |more|))
  {
  }

  /** The goroutines are the listed deliveries, the i-th with a message saying `cs[i]`. */
  ghost predicate SpawnedAs(spawned: seq<Spawn>, ds: seq<R.Delivery>, cs: seq<Content>)
    reads set i | 0 <= i < |spawned| :: spawned[i].msg,
          set i | 0 <= i < |spawned| :: spawned[i].msg.key,
          set i | 0 <= i < |spawned| :: spawned[i].msg.value,
          set i | 0 <= i < |spawned| :: spawned[i].msg.headers
  {
    && |spawned| == |ds| == |cs|
    && forall i :: 0 <= i < |spawned| ==>
         && spawned[i].id == ds[i].id && spawned[i].handler == ds[i].handler
         && spawned[i].msg.View() == cs[i]
  }

  lemma AppendOneMore(m: map<string, seq<Content>>, topic: string, views: seq<Content>, i: nat, now: nat -> int)
    requires i < |views|
    ensures var so := AppendEach(m, topic, Stamped(views[..i], topic, now));
            AppendEach(m, topic, Stamped(views[..i + 1], topic, now))
            == so[topic := AtOrEmpty(so, topic) + [Stamp(views[i], topic, now(i))]]
  {
    var xs, x := Stamped(views[..i], topic, now), Stamp(views[i], topic, now(i));
    assert Stamped(views[..i + 1], topic, now) == xs + [x];
    assert AtOrEmpty(m, topic) + (xs + [x]) == (AtOrEmpty(m, topic) + xs) + [x];
    assert xs == [] ==> xs + [x] == [x];
  }

  /** Where a batch is after its first n Publishes. */
  ghost predicate Batched(n: nat, topic: string, views: seq<Content>, now: nat -> int, tag: nat -> R.Msg,
                          subs: seq<R.SubscriberInfo>, ops0: seq<R.Op>, contents0: map<string, seq<Content>>,
                          ops: seq<R.Op>, contents: map<string, seq<Content>>,
                          ds: seq<R.Delivery>, cs: seq<Content>)
  {
    && n <= |views|
    && ops == ops0 + Publishes(topic, tag, n)
    && contents == AppendEach(contents0, topic, Stamped(views[..n], topic, now))
    && ds == BatchDeliveries(subs, tag, n)
    && cs == BatchCopies(subs, tag, Stamped(views, topic, now), n)
  }

  lemma BatchedNone(topic: string, views: seq<Content>, now: nat -> int, tag: nat -> R.Msg,
                    subs: seq<R.SubscriberInfo>, ops: seq<R.Op>, contents: map<string, seq<Content>>)
    ensures Batched(0, topic, views, now, tag, subs, ops, contents, ops, contents, [], [])
    ensures SpawnedAs([], [], []) && Apart([])
  {
  }

  lemma BatchedMore(n: nat, topic: string, views: seq<Content>, now: nat -> int, tag: nat -> R.Msg,
                    subs: seq<R.SubscriberInfo>, ops0: seq<R.Op>, contents0: map<string, seq<Content>>,
                    ops: seq<R.Op>, contents: map<string, seq<Content>>, ds: seq<R.Delivery>, cs: seq<Content>)
    requires Batched(n, topic, views, now, tag, subs, ops0, contents0, ops, contents, ds, cs) && n < |views|
    ensures var more := R.Deliveries(subs, tag(n)); var c := Stamp(views[n], topic, now(n));
            Batched(n + 1, topic, views, now, tag, subs, ops0, contents0, ops + [R.Publish(topic, tag(n))],
                    contents[topic := AtOrEmpty(contents, topic) + [c]], ds + more, cs + Repeat(c, |more|))
  {
    hide R.Deliveries, Stamp, Stamped, Repeat, AtOrEmpty, AppendEach;
    AppendOneMore(contents0, topic, views, n, now);
    assert ops0 + (Publishes(topic, tag, n) + [R.Publish(topic, tag(n))])
        == (ops0 + Publishes(topic, tag, n)) + [R.Publish(topic, tag(n))];
  }

  lemma BatchedEnds(n: nat, topic: string, views: seq<Content>, now: nat -> int, tag: nat -> R.Msg,
                    subs: seq<R.SubscriberInfo>, ops0: seq<R.Op>, contents0: map<string, seq<Content>>,
                    ops: seq<R.Op>, contents: map<string, seq<Content>>, ds: seq<R.Delivery>, cs: seq<Content>)
    requires Batched(n, topic, views, now, tag, subs, ops0, contents0, ops, contents, ds, cs) && n == |views|
    ensures ops == ops0 + Publishes(topic, tag, n)
    ensures contents == AppendEach(contents0, topic, Stamped(views, topic, now))
    ensures ds == BatchDeliveries(subs, tag, n)
    ensures cs == BatchCopies(subs, tag, Stamped(views, topic, now), n)
    ensures n == 0 ==> contents == contents0
  {
    assert views[..n] == views;
  }

  /** The spawned goroutines are the listed deliveries, each with a message saying `c`. */
  ghost predicate Delivered(spawned: seq<Spawn>, ds: seq<R.Delivery>, c: Content)
    reads set i | 0 <= i < |spawned| :: spawned[i].msg,
          set i | 0 <= i < |spawned| :: spawned[i].msg.key,
          set i | 0 <= i < |spawned| :: spawned[i].msg.value,
          set i | 0 <= i < |spawned| :: spawned[i].msg.headers
  {
    && |spawned| == |ds|
    && forall i :: 0 <= i < |spawned| ==>
         && spawned[i].id == ds[i].id && spawned[i].handler == ds[i].handler
         && spawned[i].msg.View() == c
  }

  /** No two spawned goroutines share any part of their messages. */
  ghost predicate Apart(spawned: seq<Spawn>)
    reads set i | 0 <= i < |spawned| :: spawned[i].msg
  {
    forall i, j :: 0 <= i < j < |spawned| ==> spawned[i].msg.Footprint() !! spawned[j].msg.Footprint()
  }
}
