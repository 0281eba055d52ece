/** The subscriber table of the in-memory broker (pkg/broker/inmemory.go) and the plain
    publish/subscribe specification it refines. */
module Registry {
  import opened Optional
  type HandlerId = nat
  /** A published message, identified; the InMemory module looks at contents. */
  type Msg = nat

  datatype SubscriberInfo = SubscriberInfo(id: nat, handler: HandlerId, active: bool)
  /** The `inMemorySub` handed to the caller; the handle issued k-th has id k. */
  datatype Handle = Handle(topic: string, active: bool)

  datatype Registry = Registry(connected: bool, stopClosed: bool,
                               table: map<string, seq<SubscriberInfo>>, handles: seq<Handle>)

  datatype Op =
    | Connect
    | Close
    | Publish(topic: string, m: Msg)
    | Subscribe(topic: string, handler: HandlerId)
    | UnsubscribeTopic(topic: string)
    | UnsubscribeHandle(id: nat)

  /** `Panicked`: closing the already closed stop channel. */
  datatype Outcome = Done | Issued(id: nat) | NotConnected | Panicked
  datatype Delivery = Delivery(id: nat, handler: HandlerId, m: Msg)

  const EMPTY := Registry(false, false, map[], [])

  function Subs(r: Registry, topic: string): seq<SubscriberInfo> {
    if topic in r.table then r.table[topic] else []
  }

  /** The deliveries `Publish` spawns: one per active entry, in table order. */
  function Deliveries(subs: seq<SubscriberInfo>, m: Msg): seq<Delivery> {
    if subs == [] then []
    else
      var s := subs[|subs| - 1];
      Deliveries(subs[..|subs| - 1], m) + (if s.active then [Delivery(s.id, s.handler, m)] else [])
  }

  /** The loop of `inMemorySub.Unsubscribe`: only the first entry with this id is cleared. */
  function Deactivate(subs: seq<SubscriberInfo>, id: nat): (r: seq<SubscriberInfo>)
    ensures |r| == |subs|
  {
    if subs == [] then []
    else if subs[0].id == id then [subs[0].(active := false)] + subs[1..]
    else [subs[0]] + Deactivate(subs[1..], id)
  }

  function Step(r: Registry, op: Op): (Registry, Outcome, seq<Delivery>) {
    match op
    case Connect => (r.(connected := true), Done, [])
    case Close =>
      if !r.connected then (r, Done, [])
      else if r.stopClosed then (r, Panicked, [])
      else (r.(stopClosed := true, connected := false, table := map[]), Done, [])
    case Publish(topic, m) =>
      if !r.connected then (r, NotConnected, []) else (r, Done, Deliveries(Subs(r, topic), m))
    case Subscribe(topic, handler) =>
      if !r.connected then (r, NotConnected, [])
      else
        var id := |r.handles|;
        (r.(table := r.table[topic := Subs(r, topic) + [SubscriberInfo(id, handler, true)]],
            handles := r.handles + [Handle(topic, true)]), Issued(id), [])
    case UnsubscribeTopic(topic) => (r.(table := r.table - {topic}), Done, [])
    case UnsubscribeHandle(id) =>
      if id >= |r.handles| || !r.handles[id].active then (r, Done, [])
      else
        var topic := r.handles[id].topic;
        (r.(handles := r.handles[id := Handle(topic, false)],
            table := if topic in r.table then r.table[topic := Deactivate(r.table[topic], id)] else r.table), Done, [])
  }

  // ------------------------------------------------------- the specification

  datatype Subscription = Subscription(topic: string, handler: HandlerId)

  /** Plain publish/subscribe: a map of live subscriptions and nothing else. */
  datatype Plain = Plain(connected: bool, stopClosed: bool, live: map<nat, Subscription>, issued: nat)

  const PLAIN_EMPTY := Plain(false, false, map[], 0)

  /** One delivery to every live subscription of the topic, oldest first. */
  function Fanout(live: map<nat, Subscription>, n: nat, topic: string, m: Msg): seq<Delivery> {
    if n == 0 then []
    else Fanout(live, n - 1, topic, m)
         + (if n - 1 in live && live[n - 1].topic == topic then [Delivery(n - 1, live[n - 1].handler, m)] else [])
  }

  function PlainStep(p: Plain, op: Op): (Plain, Outcome, seq<Delivery>) {
    match op
    case Connect => (p.(connected := true), Done, [])
    case Close =>
      if !p.connected then (p, Done, [])
      else if p.stopClosed then (p, Panicked, [])
      else (p.(stopClosed := true, connected := false, live := map[]), Done, [])
    case Publish(topic, m) =>
      if !p.connected then (p, NotConnected, []) else (p, Done, Fanout(p.live, p.issued, topic, m))
    case Subscribe(topic, handler) =>
      if !p.connected then (p, NotConnected, [])
      else (p.(live := p.live[p.issued := Subscription(topic, handler)], issued := p.issued + 1), Issued(p.issued), [])
    case UnsubscribeTopic(topic) =>
      (p.(live := map id | id in p.live && p.live[id].topic != topic :: p.live[id]), Done, [])
    case UnsubscribeHandle(id) => (p.(live := p.live - {id}), Done, [])
  }

  // ------------------------------------------------------------- refinement

  function Find(subs: seq<SubscriberInfo>, id: nat): Option<SubscriberInfo> {
    if subs == [] then None
    else if subs[|subs| - 1].id == id then Some(subs[|subs| - 1])
    else Find(subs[..|subs| - 1], id)
  }

  lemma {:induction false} FindSound(subs: seq<SubscriberInfo>, id: nat)
    ensures var r := Find(subs, id);
            && (r.Some? ==> r.value in subs && r.value.id == id)
            && (r.None? ==> forall i :: 0 <= i < |subs| ==> subs[i].id != id)
  {
    if subs != [] {
      FindSound(subs[..|subs| - 1], id);
    }
  }

  lemma {:induction false} FindAbsent(subs: seq<SubscriberInfo>, id: nat)
    requires forall i :: 0 <= i < |subs| ==> subs[i].id != id
    ensures Find(subs, id).None?
  {
    if subs != [] {
      FindAbsent(subs[..|subs| - 1], id);
    }
  }

  lemma EmptyFind(id: nat)
    ensures Find([], id).None?
  {
  }

  function Entry(r: Registry, id: nat): Option<SubscriberInfo>
    requires id < |r.handles|
  {
    Find(Subs(r, r.handles[id].topic), id)
  }

  predicate IsLive(r: Registry, id: nat) {
    id < |r.handles| && Entry(r, id).Some? && Entry(r, id).value.active
  }

  function SubscriptionOf(r: Registry, id: nat): Subscription
    requires IsLive(r, id)
  {
    Subscription(r.handles[id].topic, Entry(r, id).value.handler)
  }

  function Live(r: Registry): map<nat, Subscription> {
    map id: nat | 0 <= id < |r.handles| && IsLive(r, id) :: SubscriptionOf(r, id)
  }

  function Abs(r: Registry): Plain { Plain(r.connected, r.stopClosed, Live(r), |r.handles|) }

  ghost predicate Ordered(subs: seq<SubscriberInfo>) {
    forall i, j :: 0 <= i < j < |subs| ==> subs[i].id < subs[j].id
  }

  ghost predicate GoodSubs(r: Registry, topic: string, subs: seq<SubscriberInfo>) {
    && Ordered(subs)
    && forall i :: 0 <= i < |subs| ==>
         && subs[i].id < |r.handles|
         && r.handles[subs[i].id].topic == topic
         && (subs[i].active ==> r.handles[subs[i].id].active)
  }

  ghost predicate Inv(r: Registry) {
    && (!r.connected ==> r.table == map[])
    && forall t :: t in r.table ==> GoodSubs(r, t, r.table[t])
  }

  lemma {:induction false} DeactivateClearsOne(subs: seq<SubscriberInfo>, id: nat)
    requires Ordered(subs)
    ensures forall i :: 0 <= i < |subs| ==>
              Deactivate(subs, id)[i] == if subs[i].id == id then subs[i].(active := false) else subs[i]
  {
    if subs != [] && subs[0].id != id {
      DeactivateClearsOne(subs[1..], id);
    }
  }

  lemma {:induction false} FindUnique(subs: seq<SubscriberInfo>, i: nat)
    requires Ordered(subs) && i < |subs|
    ensures Find(subs, subs[i].id) == Some(subs[i])
  {
    if i < |subs| - 1 {
      FindUnique(subs[..|subs| - 1], i);
    }
  }

  lemma FindAfterDeactivate(subs: seq<SubscriberInfo>, gone: nat, id: nat)
    requires Ordered(subs)
    ensures Ordered(Deactivate(subs, gone))
    ensures id != gone ==> Find(Deactivate(subs, gone), id) == Find(subs, id)
    ensures id == gone && Find(subs, id).Some? ==>
              Find(Deactivate(subs, gone), id) == Some(Find(subs, id).value.(active := false))
    ensures id == gone && Find(subs, id).None? ==> Find(Deactivate(subs, gone), id).None?
  {
    hide Find, Deactivate;
    DeactivateClearsOne(subs, gone);
    var after := Deactivate(subs, gone);
    FindSound(subs, id);
    if Find(subs, id).Some? {
      var i :| 0 <= i < |subs| && subs[i] == Find(subs, id).value;
      FindUnique(after, i);
    } else {
      assert forall i :: 0 <= i < |after| ==> after[i].id == subs[i].id;
      FindAbsent(after, id);
    }
  }

  /** The table's entry for `id` is what `live` says of it on this topic. */
  predicate Agree(subs: seq<SubscriberInfo>, live: map<nat, Subscription>, topic: string, id: nat) {
    if id in live && live[id].topic == topic
    then Find(subs, id).Some? && Find(subs, id).value.active && Find(subs, id).value.handler == live[id].handler
    else Find(subs, id).None? || !Find(subs, id).value.active
  }

  ghost predicate Agrees(subs: seq<SubscriberInfo>, live: map<nat, Subscription>, topic: string, n: nat) {
    && Ordered(subs)
    && (forall i :: 0 <= i < |subs| ==> subs[i].id < n)
    && (forall id: nat :: id < n ==> Agree(subs, live, topic, id))
  }

  lemma AgreesLast(subs: seq<SubscriberInfo>, live: map<nat, Subscription>, topic: string, n: nat)
    requires Agrees(subs, live, topic, n) && n > 0 && subs != [] && subs[|subs| - 1].id == n - 1
    ensures Agrees(subs[..|subs| - 1], live, topic, n - 1)
    ensures var last := subs[|subs| - 1];
            && (last.active <==> n - 1 in live && live[n - 1].topic == topic)
            && (last.active ==> last.handler == live[n - 1].handler)
  {
    var init := subs[..|subs| - 1];
    assert Agree(subs, live, topic, n - 1);
    forall id: nat | id < n - 1 ensures Agree(init, live, topic, id) {
      assert Agree(subs, live, topic, id) && Find(subs, id) == Find(init, id);
    }
  }

  lemma AgreesAbsent(subs: seq<SubscriberInfo>, live: map<nat, Subscription>, topic: string, n: nat)
    requires Agrees(subs, live, topic, n) && n > 0 && (subs != [] ==> subs[|subs| - 1].id != n - 1)
    ensures Agrees(subs, live, topic, n - 1)
    ensures !(n - 1 in live && live[n - 1].topic == topic)
  {
    hide Find;
    assert forall i :: 0 <= i < |subs| ==> subs[i].id <= subs[|subs| - 1].id;
    FindAbsent(subs, n - 1);
    assert Agree(subs, live, topic, n - 1);
  }

  /** Two descriptions of the same subscribers give the same deliveries in the same order. */
  lemma {:induction false} SameDeliveries(subs: seq<SubscriberInfo>, live: map<nat, Subscription>, n: nat,
                                           topic: string, m: Msg)
    requires Agrees(subs, live, topic, n)
    ensures Deliveries(subs, m) == Fanout(live, n, topic, m)
    decreases n
  {
    if n == 0 {
      assert subs == [];
    } else {
      hide Agrees;
      if subs != [] && subs[|subs| - 1].id == n - 1 {
        AgreesLast(subs, live, topic, n);
        SameDeliveries(subs[..|subs| - 1], live, n - 1, topic, m);
      } else {
        AgreesAbsent(subs, live, topic, n);
        SameDeliveries(subs, live, n - 1, topic, m);
      }
    }
  }

  lemma TableAgrees(r: Registry, topic: string)
    requires Inv(r)
    ensures Agrees(Subs(r, topic), Live(r), topic, |r.handles|)
  {
    hide Find;
    var subs := Subs(r, topic);
    assert topic in r.table ==> GoodSubs(r, topic, subs);
    forall id: nat | id < |r.handles| ensures Agree(subs, Live(r), topic, id) {
      FindSound(subs, id);
    }
  }

  lemma PublishRefines(r: Registry, topic: string, m: Msg)
    requires Inv(r)
    ensures Deliveries(Subs(r, topic), m) == Fanout(Live(r), |r.handles|, topic, m)
  {
    hide *;
    TableAgrees(r, topic);
    SameDeliveries(Subs(r, topic), Live(r), |r.handles|, topic, m);
  }

  lemma SubscribeInv(r: Registry, topic: string, handler: HandlerId)
    requires Inv(r) && r.connected
    ensures Inv(Step(r, Subscribe(topic, handler)).0)
  {
    var r' := Step(r, Subscribe(topic, handler)).0;
    assert topic in r.table ==> GoodSubs(r, topic, r.table[topic]);
    forall t | t in r'.table ensures GoodSubs(r', t, r'.table[t]) {
      assert t != topic ==> GoodSubs(r, t, r.table[t]);
    }
  }

  ghost predicate SameSubscription(r: Registry, r': Registry, id: nat) {
    && IsLive(r, id) == IsLive(r', id)
    && (IsLive(r, id) ==> SubscriptionOf(r, id) == SubscriptionOf(r', id))
  }

  lemma SubscribeEntries(r: Registry, topic: string, handler: HandlerId, id: nat)
    requires r.connected && id < |r.handles|
    ensures SameSubscription(r, Step(r, Subscribe(topic, handler)).0, id)
  {
    var r' := Step(r, Subscribe(topic, handler)).0;
    var before, added := Subs(r, topic), SubscriberInfo(|r.handles|, handler, true);
    assert r'.handles[id] == r.handles[id];
    FindInLonger(before, added, id);
    if r.handles[id].topic == topic {
      assert Subs(r', topic) == before + [added];
    } else {
      assert Subs(r', r.handles[id].topic) == Subs(r, r.handles[id].topic);
    }
    assert Entry(r', id) == Entry(r, id);
  }

  lemma FindInLonger(subs: seq<SubscriberInfo>, added: SubscriberInfo, id: nat)
    requires added.id != id
    ensures Find(subs + [added], id) == Find(subs, id)
  {
    assert (subs + [added])[..|subs|] == subs;
  }

  lemma SubscribeLive(r: Registry, topic: string, handler: HandlerId)
    requires r.connected
    ensures var r' := Step(r, Subscribe(topic, handler)).0;
            Live(r') == Live(r)[|r.handles| := Subscription(topic, handler)]
  {
    var r', n := Step(r, Subscribe(topic, handler)).0, |r.handles|;
    assert Entry(r', n) == Some(SubscriberInfo(n, handler, true));
    assert IsLive(r', n) && SubscriptionOf(r', n) == Subscription(topic, handler);
    var expected := Live(r)[n := Subscription(topic, handler)];
    forall id: nat
      ensures id in Live(r') <==> id in expected
      ensures id in Live(r') ==> Live(r')[id] == expected[id]
    {
      if id < n {
        SubscribeEntries(r, topic, handler, id);
      }
    }
  }

  lemma UnsubscribeHandleInv(r: Registry, id: nat)
    requires Inv(r)
    ensures Inv(Step(r, UnsubscribeHandle(id)).0)
  {
    hide Deactivate;
    var r' := Step(r, UnsubscribeHandle(id)).0;
    if id < |r.handles| && r.handles[id].active {
      forall t | t in r'.table ensures GoodSubs(r', t, r'.table[t]) {
        assert GoodSubs(r, t, r.table[t]);
        if t == r.handles[id].topic {
          DeactivateClearsOne(r.table[t], id);
        }
      }
    }
  }

  lemma UnsubscribeHandleEntries(r: Registry, id: nat, k: nat)
    requires id < |r.handles| && r.handles[id].active && k < |r.handles|
    requires Ordered(Subs(r, r.handles[id].topic))
    ensures var r' := Step(r, UnsubscribeHandle(id)).0;
            if k == id then !IsLive(r', k) else SameSubscription(r, r', k)
  {
    hide Find, Deactivate;
    var topic := r.handles[id].topic;
    EmptyFind(id);
    if topic in r.table {
      FindAfterDeactivate(r.table[topic], id, k);
    }
  }

  lemma UnsubscribeHandleLive(r: Registry, id: nat)
    requires id < |r.handles| && r.handles[id].active
    requires Ordered(Subs(r, r.handles[id].topic))
    ensures Live(Step(r, UnsubscribeHandle(id)).0) == Live(r) - {id}
  {
    var r' := Step(r, UnsubscribeHandle(id)).0;
    var expected := Live(r) - {id};
    forall k: nat
      ensures k in Live(r') <==> k in expected
      ensures k in Live(r') ==> Live(r')[k] == expected[k]
    {
      if k < |r.handles| {
        UnsubscribeHandleEntries(r, id, k);
      }
    }
  }

  /** A live entry belongs to an active handle. */
  lemma LiveHandleActive(r: Registry, id: nat)
    requires Inv(r) && IsLive(r, id)
    ensures r.handles[id].active
  {
    var topic := r.handles[id].topic;
    var subs := Subs(r, topic);
    FindSound(subs, id);
    assert topic in r.table;
    assert GoodSubs(r, topic, subs);
    hide Inv, Find;
    var i :| 0 <= i < |subs| && subs[i] == Entry(r, id).value;
  }

  lemma TopicOrdered(r: Registry, topic: string)
    requires Inv(r)
    ensures Ordered(Subs(r, topic))
  {
    assert topic in r.table ==> GoodSubs(r, topic, r.table[topic]);
  }

  lemma InactiveNotLive(r: Registry, id: nat)
    requires Inv(r) && !(id < |r.handles| && r.handles[id].active)
    ensures Step(r, UnsubscribeHandle(id)).0 == r && id !in Live(r)
  {
    hide Inv, Deactivate, Find;
    if IsLive(r, id) {
      LiveHandleActive(r, id);
    }
  }

  lemma UnsubscribeHandleRefines(r: Registry, id: nat)
    requires Inv(r)
    ensures Live(Step(r, UnsubscribeHandle(id)).0) == Live(r) - {id}
  {
    hide *;
    if id < |r.handles| && r.handles[id].active {
      TopicOrdered(r, r.handles[id].topic);
      UnsubscribeHandleLive(r, id);
    } else {
      InactiveNotLive(r, id);
    }
  }

  lemma UnsubscribeTopicLive(r: Registry, topic: string)
    ensures var r' := Step(r, UnsubscribeTopic(topic)).0;
            Abs(r') == PlainStep(Abs(r), UnsubscribeTopic(topic)).0
  {
    var r' := Step(r, UnsubscribeTopic(topic)).0;
    forall id: nat | id < |r.handles|
      ensures IsLive(r', id) == (IsLive(r, id) && r.handles[id].topic != topic)
      ensures IsLive(r', id) ==> Entry(r', id) == Entry(r, id)
    {
    }
  }

  lemma UnsubscribeTopicInv(r: Registry, topic: string)
    requires Inv(r)
    ensures Inv(Step(r, UnsubscribeTopic(topic)).0)
  {
    var r' := Step(r, UnsubscribeTopic(topic)).0;
    forall t | t in r'.table ensures GoodSubs(r', t, r'.table[t]) {
      assert GoodSubs(r, t, r.table[t]);
    }
  }

  /** One operation: the tombstone table does what the plain specification does, observably and
      in the state it represents, and stays well formed. */
  lemma StepRefines(r: Registry, op: Op)
    requires Inv(r)
    ensures Inv(Step(r, op).0)
    ensures var (r', out, ds) := Step(r, op); (Abs(r'), out, ds) == PlainStep(Abs(r), op)
  {
    match op
    case Publish(topic, m) => PublishRefines(r, topic, m);
    case Subscribe(topic, handler) =>
      if r.connected {
        SubscribeInv(r, topic, handler);
        SubscribeLive(r, topic, handler);
      }
    case UnsubscribeTopic(topic) =>
      UnsubscribeTopicInv(r, topic);
      UnsubscribeTopicLive(r, topic);
    case UnsubscribeHandle(id) =>
      UnsubscribeHandleInv(r, id);
      UnsubscribeHandleRefines(r, id);
    case Connect =>
      var r' := Step(r, op).0;
      assert forall id: nat :: id < |r.handles| ==> IsLive(r', id) == IsLive(r, id);
      assert forall t :: t in r'.table ==> GoodSubs(r, t, r.table[t]);
    case Close =>
  }

  // ------------------------------------------------------------- whole runs

  datatype History = History(outcomes: seq<Outcome>, log: seq<Delivery>)

  function Run(ops: seq<Op>): (Registry, History) {
    if ops == [] then (EMPTY, History([], []))
    else
      var (r, h) := Run(ops[..|ops| - 1]);
      var (r', out, ds) := Step(r, ops[|ops| - 1]);
      (r', History(h.outcomes + [out], h.log + ds))
  }

  function PlainRun(ops: seq<Op>): (Plain, History) {
    if ops == [] then (PLAIN_EMPTY, History([], []))
    else
      var (p, h) := PlainRun(ops[..|ops| - 1]);
      var (p', out, ds) := PlainStep(p, ops[|ops| - 1]);
      (p', History(h.outcomes + [out], h.log + ds))
  }

  /** Refinement over every run: same results, same deliveries in the same order, and the table
      represents exactly the live subscriptions. */
  lemma {:induction false} RunRefines(ops: seq<Op>)
    ensures Inv(Run(ops).0)
    ensures Abs(Run(ops).0) == PlainRun(ops).0
    ensures Run(ops).1 == PlainRun(ops).1
  {
    if ops != [] {
      var init := ops[..|ops| - 1];
      RunRefines(init);
      StepRefines(Run(init).0, ops[|ops| - 1]);
    }
  }

  /** A subscription that still receives has an active handle. */
  lemma LiveImpliesHandleActive(ops: seq<Op>, id: nat)
    requires id in PlainRun(ops).0.live
    ensures id < |Run(ops).0.handles| && Run(ops).0.handles[id].active
    ensures Run(ops).0.handles[id].topic == PlainRun(ops).0.live[id].topic
  {
    RunRefines(ops);
    LiveHandleActive(Run(ops).0, id);
  }

  /** What one subscription was sent. */
  function Received(log: seq<Delivery>, id: nat): seq<Msg> {
    if log == [] then []
    else Received(log[..|log| - 1], id) + (if log[|log| - 1].id == id then [log[|log| - 1].m] else [])
  }

  lemma {:induction false} ReceivedConcat(a: seq<Delivery>, b: seq<Delivery>, id: nat)
    ensures Received(a + b, id) == Received(a, id) + Received(b, id)
  {
    if b == [] {
      assert a + b == a;
    } else {
      var init := b[..|b| - 1];
      ReceivedConcat(a, init, id);
      assert (a + b)[..|a + b| - 1] == a + init;
    }
  }

  lemma ReceivedSingle(d: Delivery, id: nat)
    ensures Received([d], id) == if d.id == id then [d.m] else []
    ensures Received([], id) == []
  {
    assert [d][..0] == [];
  }

  lemma {:induction false} ReceivedFromFanout(live: map<nat, Subscription>, n: nat, topic: string, m: Msg, id: nat)
    ensures Received(Fanout(live, n, topic, m), id)
            == if id < n && id in live && live[id].topic == topic then [m] else []
  {
    hide Received;
    if n == 0 {
      ReceivedSingle(Delivery(0, 0, m), id);
    } else {
      ReceivedFromFanout(live, n - 1, topic, m, id);
      var init := Fanout(live, n - 1, topic, m);
      if n - 1 in live && live[n - 1].topic == topic {
        var d := Delivery(n - 1, live[n - 1].handler, m);
        ReceivedConcat(init, [d], id);
        ReceivedSingle(d, id);
      } else {
        assert init + [] == init;
      }
    }
  }

  /** The publishes made to a subscription's topic while it was live. */
  function PublishedWhileLive(ops: seq<Op>, id: nat): seq<Msg> {
    if ops == [] then []
    else
      var init, last := ops[..|ops| - 1], ops[|ops| - 1];
      var p := PlainRun(init).0;
      PublishedWhileLive(init, id)
      + (if last.Publish? && id in p.live && p.live[id].topic == last.topic then [last.m] else [])
  }

  lemma {:induction false} LiveOnlyWhileConnected(ops: seq<Op>)
    ensures var p := PlainRun(ops).0;
            && (!p.connected ==> p.live == map[])
            && forall id :: id in p.live ==> id < p.issued
  {
    if ops != [] {
      LiveOnlyWhileConnected(ops[..|ops| - 1]);
    }
  }

  lemma ReceivedFromStep(p: Plain, op: Op, id: nat)
    requires (!p.connected ==> p.live == map[]) && forall k :: k in p.live ==> k < p.issued
    ensures Received(PlainStep(p, op).2, id)
            == if op.Publish? && id in p.live && p.live[id].topic == op.topic then [op.m] else []
  {
    assert Received([], id) == [];
    if op.Publish? {
      ReceivedFromFanout(p.live, p.issued, op.topic, op.m, id);
    }
  }

  /** Over any run, what a subscription receives is one delivery for each publish to its topic
      made while it was live, in publish order, and nothing else. */
  lemma {:induction false} ExactlyOncePerPublish(ops: seq<Op>, id: nat)
    ensures Received(Run(ops).1.log, id) == PublishedWhileLive(ops, id)
  {
    RunRefines(ops);
    if ops != [] {
      var init, last := ops[..|ops| - 1], ops[|ops| - 1];
      RunRefines(init);
      ExactlyOncePerPublish(init, id);
      LiveOnlyWhileConnected(init);
      ReceivedFromStep(PlainRun(init).0, last, id);
      hide Run, Abs, Inv, Received, PlainStep, Fanout;
      ReceivedConcat(PlainRun(init).1.log, PlainStep(PlainRun(init).0, last).2, id);
    }
  }

  /** Operation k ends the subscription `id` on `topic`. */
  ghost predicate Ends(ops: seq<Op>, k: nat, id: nat, topic: string)
    requires k < |ops|
  {
    var p := PlainRun(ops[..k]).0;
    || ops[k] == UnsubscribeHandle(id)
    || ops[k] == UnsubscribeTopic(topic)
    || (ops[k] == Close && p.connected && !p.stopClosed)
  }

  /** Operation j issued the subscription `id`. */
  ghost predicate Issues(ops: seq<Op>, j: nat, id: nat)
    requires j < |ops|
  {
    var p := PlainRun(ops[..j]).0;
    ops[j].Subscribe? && p.connected && p.issued == id
  }

  /** Operation j issued `id`, and nothing since has ended it. */
  ghost predicate LiveSince(ops: seq<Op>, j: nat, id: nat) {
    && j < |ops| && Issues(ops, j, id)
    && forall k :: j < k < |ops| ==> !Ends(ops, k, id, ops[j].topic)
  }

  lemma LiveSinceShorter(ops: seq<Op>, j: nat, id: nat)
    requires j < |ops| - 1 && ops[j].Subscribe?
    ensures LiveSince(ops, j, id) <==>
            LiveSince(ops[..|ops| - 1], j, id) && !Ends(ops, |ops| - 1, id, ops[j].topic)
  {
    var n := |ops| - 1;
    var init := ops[..n];
    forall k: nat | k < n ensures init[..k] == ops[..k] {
    }
    assert forall k :: j < k < n ==> Ends(ops, k, id, ops[j].topic) == Ends(init, k, id, init[j].topic);
  }

  lemma {:induction false} LiveSinceIsLive(ops: seq<Op>, j: nat, id: nat)
    requires LiveSince(ops, j, id)
    ensures var live := PlainRun(ops).0.live;
            id in live && live[id] == Subscription(ops[j].topic, ops[j].handler)
    decreases |ops|
  {
    var n := |ops| - 1;
    if j < n {
      LiveSinceShorter(ops, j, id);
      LiveSinceIsLive(ops[..n], j, id);
      LiveOnlyWhileConnected(ops[..n]);
    }
  }

  lemma {:induction false} LiveHasOrigin(ops: seq<Op>, id: nat) returns (j: nat)
    requires id in PlainRun(ops).0.live
    ensures LiveSince(ops, j, id)
    decreases |ops|
  {
    var n := |ops| - 1;
    var init, p := ops[..n], PlainRun(ops[..n]).0;
    if ops[n].Subscribe? && p.connected && p.issued == id {
      j := n;
    } else {
      j := LiveHasOrigin(init, id);
      LiveSinceIsLive(init, j, id);
      LiveOnlyWhileConnected(init);
      LiveSinceShorter(ops, j, id);
    }
  }

  /** Read off the operation history alone: a subscription is live exactly when some operation
      issued it and no later unsubscribe or close has ended it. */
  lemma LiveIffIssuedAndNotEnded(ops: seq<Op>, id: nat)
    ensures id in Abs(Run(ops).0).live <==> exists j :: LiveSince(ops, j, id)
  {
    RunRefines(ops);
    if id in PlainRun(ops).0.live {
      var j := LiveHasOrigin(ops, id);
    }
    if j :| LiveSince(ops, j, id) {
      LiveSinceIsLive(ops, j, id);
    }
  }

  // -------------------------------------------- what else can be read off a run

  /** A delivery goes to a live subscription of the topic, under its handler. */
  predicate Addressed(live: map<nat, Subscription>, topic: string, m: Msg, d: Delivery) {
    d.id in live && live[d.id] == Subscription(topic, d.handler) && d.m == m
  }

  ghost predicate Ascending(ds: seq<Delivery>, n: nat) {
    && (forall i :: 0 <= i < |ds| ==> ds[i].id < n)
    && (forall i, j :: 0 <= i < j < |ds| ==> ds[i].id < ds[j].id)
  }

  lemma {:induction false} FanoutNames(live: map<nat, Subscription>, n: nat, topic: string, m: Msg)
    ensures Ascending(Fanout(live, n, topic, m), n)
    ensures forall i :: 0 <= i < |Fanout(live, n, topic, m)| ==> Addressed(live, topic, m, Fanout(live, n, topic, m)[i])
  {
    if n > 0 {
      FanoutNames(live, n - 1, topic, m);
      var prev := Fanout(live, n - 1, topic, m);
      if n - 1 in live && live[n - 1].topic == topic {
        assert Fanout(live, n, topic, m) == prev + [Delivery(n - 1, live[n - 1].handler, m)];
      } else {
        assert Fanout(live, n, topic, m) == prev;
      }
    }
  }

  lemma PublishIsFanout(ops: seq<Op>, topic: string, m: Msg)
    ensures var p := PlainRun(ops).0;
            Step(Run(ops).0, Publish(topic, m)).2 == if p.connected then Fanout(p.live, p.issued, topic, m) else []
  {
    RunRefines(ops);
    hide Run, PlainRun, Inv;
    StepRefines(Run(ops).0, Publish(topic, m));
  }

  /** The subscription `id`, still live, came out of a Subscribe to this topic with this handler. */
  ghost predicate CameFrom(ops: seq<Op>, id: nat, topic: string, handler: HandlerId) {
    exists j: nat :: j < |ops| && LiveSince(ops, j, id) && ops[j] == Subscribe(topic, handler)
  }

  lemma SubscriptionOrigin(ops: seq<Op>, id: nat)
    requires id in PlainRun(ops).0.live
    ensures CameFrom(ops, id, PlainRun(ops).0.live[id].topic, PlainRun(ops).0.live[id].handler)
  {
    var j := LiveHasOrigin(ops, id);
    LiveSinceIsLive(ops, j, id);
  }

  /** A publish is delivered in the order of subscribing, each delivery to the very handler that was
      subscribed to the topic. */
  lemma DeliveriesReachTheirHandlers(ops: seq<Op>, topic: string, m: Msg)
    ensures var ds := Step(Run(ops).0, Publish(topic, m)).2;
            && (forall i, j :: 0 <= i < j < |ds| ==> ds[i].id < ds[j].id)
            && (forall i :: 0 <= i < |ds| ==> ds[i].m == m && CameFrom(ops, ds[i].id, topic, ds[i].handler))
  {
    PublishIsFanout(ops, topic, m);
    var p, ds := PlainRun(ops).0, Step(Run(ops).0, Publish(topic, m)).2;
    FanoutNames(p.live, p.issued, topic, m);
    hide Run, Step, Fanout, PlainRun, CameFrom;
    forall i | 0 <= i < |ds| ensures ds[i].m == m && CameFrom(ops, ds[i].id, topic, ds[i].handler) {
      assert Addressed(p.live, topic, m, ds[i]);
      SubscriptionOrigin(ops, ds[i].id);
    }
  }

  /** Operation k is a close while connected. */
  ghost predicate ClosesAt(ops: seq<Op>, k: nat) {
    k < |ops| && ops[k] == Close && Run(ops[..k]).0.connected
  }

  lemma ClosesAtPrefix(ops: seq<Op>, n: nat, k: nat)
    requires k < n <= |ops|
    ensures ClosesAt(ops[..n], k) <==> ClosesAt(ops, k)
  {
    assert ops[..n][..k] == ops[..k];
  }

  /** Closing panics exactly when the broker is connected and was closed while connected before. */
  lemma ClosePanicsIff(ops: seq<Op>)
    ensures Step(Run(ops).0, Close).1 == Panicked <==> Run(ops).0.connected && exists k :: ClosesAt(ops, k)
  {
    StopClosedIff(ops);
  }

  lemma {:induction false} StopClosedIff(ops: seq<Op>)
    ensures Run(ops).0.stopClosed <==> exists k :: ClosesAt(ops, k)
  {
    if ops != [] {
      var n := |ops| - 1;
      StopClosedIff(ops[..n]);
      StopClosedStep(Run(ops[..n]).0, ops[n]);
      assert ClosesAt(ops, n) <==> ops[n] == Close && Run(ops[..n]).0.connected;
      forall k: nat | k < n ensures ClosesAt(ops[..n], k) <==> ClosesAt(ops, k) {
        ClosesAtPrefix(ops, n, k);
      }
      assert forall k: nat :: ClosesAt(ops, k) ==> k <= n;
      assert forall k: nat :: ClosesAt(ops[..n], k) ==> k < n;
      hide ClosesAt, Step;
    }
  }

  lemma StopClosedStep(r: Registry, op: Op)
    ensures Step(r, op).0.stopClosed <==> r.stopClosed || (op == Close && r.connected)
  {
  }

  /** Operation k unsubscribes the handle `id`, which has been issued. */
  ghost predicate UnsubscribesAt(ops: seq<Op>, k: nat, id: nat) {
    k < |ops| && ops[k] == UnsubscribeHandle(id) && id < |Run(ops[..k]).0.handles|
  }

  lemma UnsubscribesAtPrefix(ops: seq<Op>, n: nat, k: nat, id: nat)
    requires k < n <= |ops|
    ensures UnsubscribesAt(ops[..n], k, id) <==> UnsubscribesAt(ops, k, id)
  {
    assert ops[..n][..k] == ops[..k];
  }

  /** A handle's own flag is cleared by its own Unsubscribe and nothing else: neither the topic's
      unsubscribe nor a close touches it. */
  lemma {:induction false} HandleInactiveIffUnsubscribed(ops: seq<Op>, id: nat)
    ensures (id < |Run(ops).0.handles| && !Run(ops).0.handles[id].active) <==> exists k :: UnsubscribesAt(ops, k, id)
  {
    if ops != [] {
      var n := |ops| - 1;
      HandleInactiveIffUnsubscribed(ops[..n], id);
      HandleStep(Run(ops[..n]).0, ops[n], id);
      assert UnsubscribesAt(ops, n, id) <==> ops[n] == UnsubscribeHandle(id) && id < |Run(ops[..n]).0.handles|;
      forall k: nat | k < n ensures UnsubscribesAt(ops[..n], k, id) <==> UnsubscribesAt(ops, k, id) {
        UnsubscribesAtPrefix(ops, n, k, id);
      }
      assert forall k: nat :: UnsubscribesAt(ops, k, id) ==> k <= n;
      assert forall k: nat :: UnsubscribesAt(ops[..n], k, id) ==> k < n;
      hide UnsubscribesAt, Step;
    }
  }

  /** What a step does to one handle: issued active, cleared by its own unsubscribe. */
  lemma HandleStep(r: Registry, op: Op, id: nat)
    ensures |r.handles| <= |Step(r, op).0.handles|
    ensures id < |Step(r, op).0.handles| ==>
              if id < |r.handles| then
                Step(r, op).0.handles[id].active <==> r.handles[id].active && op != UnsubscribeHandle(id)
              else Step(r, op).0.handles[id].active
  {
  }
}
