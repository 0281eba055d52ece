/** `ConsumerGroup` (pkg/consumer/consumer.go:17-118), with Start, Stop and Add serialised. */
module Groups {
  import opened Errors
  import opened Registry

  /** Any broker with the in-memory table: its k-th Subscribe fails with `subFault(k)` unless that
      is Nil, and unsubscribing handle id fails with `unsubFault(id)`, leaving it live. The
      in-memory broker is the case where both are always Nil. */
  class Broker {
    var registry: Registry
    var subCalls: nat
    const subFault: nat -> Error
    const unsubFault: nat -> Error

    constructor (subFault: nat -> Error, unsubFault: nat -> Error)
      ensures Valid() && registry == EMPTY && subCalls == 0
      ensures this.subFault == subFault && this.unsubFault == unsubFault
    {
      this.subFault, this.unsubFault := subFault, unsubFault;
      registry, subCalls := EMPTY, 0;
    }

    ghost predicate Valid()
      reads this
    {
      Inv(registry)
    }

    method Connect()
      requires Valid()
      modifies this`registry
      ensures Valid() && registry == old(registry).(connected := true) && Live(registry) == Live(old(registry))
    {
      ConnectEffects(registry);
      registry := Step(registry, Op.Connect).0;
    }

    method Subscribe(topic: string, handler: HandlerId) returns (err: Error, id: nat)
      requires Valid()
      modifies this
      ensures Valid() && subCalls == old(subCalls) + 1 && registry.connected == old(registry.connected)
      ensures err.Nil? <==> Accepted(subFault, old(registry).connected, old(subCalls))
      ensures !err.Nil? ==> registry == old(registry)
      ensures err.Nil? ==>
                && id == |old(registry).handles| && |registry.handles| == id + 1
                && id !in Live(old(registry))
                && Live(registry) == Live(old(registry))[id := Subscription(topic, handler)]
    {
      hide Inv, Live, Step;
      var fault := subFault(subCalls);
      subCalls := subCalls + 1;
      if !fault.Nil? {
        return fault, 0;
      }
      if !registry.connected {
        return ErrNotConnected, 0;
      }
      SubscribeEffects(registry, topic, handler);
      id := |registry.handles|;
      registry := Step(registry, Op.Subscribe(topic, handler)).0;
      err := Nil;
    }

    method UnsubscribeHandle(id: nat) returns (err: Error)
      requires Valid()
      modifies this`registry
      ensures Valid() && err == unsubFault(id)
      ensures registry.connected == old(registry.connected)
      ensures Live(registry) == if err.Nil? then Live(old(registry)) - {id} else Live(old(registry))
    {
      hide Inv, Live, Step;
      err := unsubFault(id);
      if err.Nil? {
        UnsubscribeEffects(registry, id);
        registry := Step(registry, Op.UnsubscribeHandle(id)).0;
      }
    }
  }

  /** The n Subscribes from number `from` on all succeed. */
  ghost predicate Accepts(fault: nat -> Error, connected: bool, from: nat, n: nat) {
    forall k: nat :: from <= k < from + n ==> Accepted(fault, connected, k)
  }

  predicate Accepted(fault: nat -> Error, connected: bool, k: nat) { connected && fault(k).Nil? }

  lemma AcceptsNone(fault: nat -> Error, connected: bool, from: nat)
    ensures Accepts(fault, connected, from, 0)
  {
  }

  /** The next Subscribe, number `call`, decides. */
  lemma AcceptsOneMore(fault: nat -> Error, connected: bool, from: nat, n: nat, next: nat, all: nat, call: nat)
    requires Accepts(fault, connected, from, n) && next == n + 1 <= all && call == from + n
    ensures Accepts(fault, connected, from, next) <==> Accepted(fault, connected, call)
    ensures !Accepted(fault, connected, call) ==>
              !Accepts(fault, connected, from, all) && Refused(fault, connected, from, n)
  {
    hide Accepted;
  }

  lemma ConnectEffects(r: Registry)
    requires Inv(r)
    ensures var r' := Step(r, Op.Connect).0; Inv(r') && Live(r') == Live(r)
  {
    StepRefines(r, Op.Connect);
  }

  /** The first n Subscribes from number `from` on succeed and the next is refused. */
  ghost predicate Refused(fault: nat -> Error, connected: bool, from: nat, n: nat) {
    Accepts(fault, connected, from, n) && !Accepted(fault, connected, from + n)
  }

  lemma SubscribeEffects(r: Registry, topic: string, handler: HandlerId)
    requires Inv(r) && r.connected
    ensures var r' := Step(r, Op.Subscribe(topic, handler)).0;
            && Inv(r') && r'.connected && |r.handles| !in Live(r) && |r'.handles| == |r.handles| + 1
            && Live(r') == Live(r)[|r.handles| := Subscription(topic, handler)]
  {
    hide Inv, Live, IsLive, Subs, SubscriptionOf, Entry, Find;
    SubscribeInv(r, topic, handler);
    SubscribeLive(r, topic, handler);
    FreshIdNotLive(r);
  }

  lemma UnsubscribeEffects(r: Registry, id: nat)
    requires Inv(r)
    ensures var r' := Step(r, Op.UnsubscribeHandle(id)).0;
            Inv(r') && r'.connected == r.connected && Live(r') == Live(r) - {id}
  {
    hide Inv, Live, IsLive, Deactivate;
    UnsubscribeHandleInv(r, id);
    UnsubscribeHandleRefines(r, id);
  }

  lemma FreshIdNotLive(r: Registry)
    ensures |r.handles| !in Live(r)
  {
    assert !IsLive(r, |r.handles|);
  }

  /** The ids of `subs` whose unsubscribe does not fail. */
  ghost function Removable(subs: map<string, nat>, fault: nat -> Error): set<nat> {
    set t | t in subs && fault(subs[t]).Nil? :: subs[t]
  }

  ghost predicate AllRemovable(subs: map<string, nat>, fault: nat -> Error) {
    forall t :: t in subs ==> fault(subs[t]).Nil?
  }

  lemma RemovableOneMore(subs: map<string, nat>, fault: nat -> Error, topic: string, id: nat)
    requires topic !in subs
    ensures Removable(subs[topic := id], fault) == Removable(subs, fault) + (if fault(id).Nil? then {id} else {})
    ensures AllRemovable(subs[topic := id], fault) <==> AllRemovable(subs, fault) && fault(id).Nil?
  {
    var subs' := subs[topic := id];
    forall t | t in subs ensures t in subs' && subs'[t] == subs[t] {
    }
    assert topic in subs' && subs'[topic] == id;
  }

  /** `after` is `before` plus exactly one new subscription per topic of `subs`, bound to that
      topic's handler. */
  ghost predicate Installed(before: map<nat, Subscription>, after: map<nat, Subscription>,
                            subs: map<string, nat>, handlers: map<string, HandlerId>) {
    && subs.Keys <= handlers.Keys
    && (forall t :: t in subs ==>
          subs[t] !in before && subs[t] in after && after[subs[t]] == Subscription(t, handlers[t]))
    && (forall id :: id in before ==> id in after && after[id] == before[id])
    && (forall id :: id in after && id !in before ==> exists t :: t in subs && subs[t] == id)
  }

  lemma InstallOneMore(before: map<nat, Subscription>, after: map<nat, Subscription>, subs: map<string, nat>,
                       handlers: map<string, HandlerId>, topic: string, id: nat)
    requires Installed(before, after, subs, handlers)
    requires topic in handlers && topic !in subs && id !in after
    ensures Installed(before, after[id := Subscription(topic, handlers[topic])], subs[topic := id], handlers)
  {
    var after', subs' := after[id := Subscription(topic, handlers[topic])], subs[topic := id];
    forall k | k in after' && k !in before ensures exists t :: t in subs' && subs'[t] == k {
      if k == id {
        assert topic in subs';
      } else {
        var t :| t in subs && subs[t] == k;
        assert t in subs';
      }
    }
  }

  /** The subscriptions whose unsubscribe fails. */
  ghost function Stuck(subs: map<string, nat>, fault: nat -> Error): map<string, nat> {
    map t | t in subs && !fault(subs[t]).Nil? :: subs[t]
  }

  /** Removing the removable ones leaves `before` and exactly the ones that failed. */
  lemma RollbackLeaves(before: map<nat, Subscription>, after: map<nat, Subscription>, subs: map<string, nat>,
                       handlers: map<string, HandlerId>, fault: nat -> Error)
    requires Installed(before, after, subs, handlers)
    ensures var left := after - Removable(subs, fault);
            && Installed(before, left, Stuck(subs, fault), handlers)
            && (left == before <==> AllRemovable(subs, fault))
  {
    var left, stuck := after - Removable(subs, fault), Stuck(subs, fault);
    forall id | id in left && id !in before ensures exists t :: t in stuck && stuck[t] == id {
      var t :| t in subs && subs[t] == id;
      assert t in stuck;
    }
    if AllRemovable(subs, fault) {
      assert forall id :: id in left <==> id in before;
      assert left == before;
    } else {
      var t :| t in subs && !fault(subs[t]).Nil?;
      assert subs[t] in left;
    }
  }

  ghost predicate HasId(subs: map<string, nat>, id: nat) { exists t :: t in subs && subs[t] == id }

  /** The ids of `subs` are the n ids from `first` on. */
  ghost predicate Consecutive(subs: map<string, nat>, first: nat, n: nat) {
    && (forall t :: t in subs ==> first <= subs[t] < first + n)
    && (forall id: nat :: first <= id < first + n ==> HasId(subs, id))
  }

  lemma ConsecutiveOneMore(subs: map<string, nat>, first: nat, n: nat, topic: string, id: nat)
    requires Consecutive(subs, first, n) && topic !in subs && id == first + n
    ensures Consecutive(subs[topic := id], first, n + 1)
    ensures |subs[topic := id]| == |subs| + 1
  {
    var subs' := subs[topic := id];
    forall k: nat | first <= k < first + n + 1 ensures HasId(subs', k) {
      if k < id {
        assert HasId(subs, k);
        var t :| t in subs && subs[t] == k;
        assert t in subs';
      } else {
        assert topic in subs';
      }
    }
  }

  /** None of the n unsubscribes from id `first` on fails. */
  ghost predicate Removes(fault: nat -> Error, first: nat, n: nat) {
    forall id: nat :: first <= id < first + n ==> fault(id).Nil?
  }

  lemma ConsecutiveRemovable(subs: map<string, nat>, fault: nat -> Error, first: nat, n: nat)
    requires Consecutive(subs, first, n)
    ensures AllRemovable(subs, fault) <==> Removes(fault, first, n)
  {
    if Removes(fault, first, n) {
      forall t | t in subs ensures fault(subs[t]).Nil? {
      }
    } else {
      var id: nat :| first <= id < first + n && !fault(id).Nil?;
      assert HasId(subs, id);
      var t :| t in subs && subs[t] == id;
    }
  }

  lemma RemoveOneMore(m: map<nat, Subscription>, gone: set<nat>, id: nat)
    ensures (m - gone) - {id} == m - (gone + {id})
    ensures m - (gone + {}) == m - gone
  {
  }

  /** Where the loop over `subs` is when only `todo` is left. */
  ghost predicate Removing(before: map<nat, Subscription>, live: map<nat, Subscription>, subs: map<string, nat>,
                           todo: set<string>, clean: bool, fault: nat -> Error) {
    var done := subs - todo;
    && todo <= subs.Keys
    && live == before - Removable(done, fault)
    && (clean <==> AllRemovable(done, fault))
  }

  lemma RemovingStarts(before: map<nat, Subscription>, subs: map<string, nat>, fault: nat -> Error)
    ensures Removing(before, before, subs, subs.Keys, true, fault)
  {
    assert subs - subs.Keys == map[];
  }

  lemma RemovingEnds(before: map<nat, Subscription>, live: map<nat, Subscription>, subs: map<string, nat>,
                     clean: bool, fault: nat -> Error)
    requires Removing(before, live, subs, {}, clean, fault)
    ensures live == before - Removable(subs, fault) && (clean <==> AllRemovable(subs, fault))
  {
    assert subs - {} == subs;
  }

  lemma RemovingStep(before: map<nat, Subscription>, live: map<nat, Subscription>, subs: map<string, nat>,
                     todo: set<string>, clean: bool, fault: nat -> Error, topic: string)
    requires Removing(before, live, subs, todo, clean, fault) && topic in todo
    ensures topic in subs
    ensures var ok := fault(subs[topic]).Nil?;
            Removing(before, if ok then live - {subs[topic]} else live, subs, todo - {topic}, clean && ok, fault)
  {
    var done, id := subs - todo, subs[topic];
    assert subs - (todo - {topic}) == done[topic := id];
    RemovableOneMore(done, fault, topic, id);
    RemoveOneMore(before, Removable(done, fault), id);
  }

  /** Where Start's loop is when only `todo` is left: the broker has served the Subscribes from number
      `first` up to `calls`, and issued the ids from `firstId` up to `ids`. */
  ghost predicate Installing(before: map<nat, Subscription>, live: map<nat, Subscription>, subs: map<string, nat>,
                             handlers: map<string, HandlerId>, todo: set<string>,
                             first: nat, calls: nat, firstId: nat, ids: nat) {
    && todo <= handlers.Keys
    && subs.Keys == handlers.Keys - todo
    && Installed(before, live, subs, handlers)
    && calls == first + |subs| && ids == firstId + |subs|
    && Consecutive(subs, firstId, |subs|)
  }

  lemma InstallingStarts(before: map<nat, Subscription>, handlers: map<string, HandlerId>, first: nat, firstId: nat)
    ensures Installing(before, before, map[], handlers, handlers.Keys, first, first, firstId, firstId)
  {
  }

  lemma InstallingNow(before: map<nat, Subscription>, live: map<nat, Subscription>, subs: map<string, nat>,
                      handlers: map<string, HandlerId>, todo: set<string>,
                      first: nat, calls: nat, firstId: nat, ids: nat)
    requires Installing(before, live, subs, handlers, todo, first, calls, firstId, ids)
    ensures todo <= handlers.Keys && Installed(before, live, subs, handlers)
    ensures Consecutive(subs, firstId, |subs|) && calls == first + |subs|
    ensures if todo == {} then subs.Keys == handlers.Keys && |subs| == |handlers| else |subs| < |handlers|
  {
    assert |subs| == |subs.Keys| && |handlers| == |handlers.Keys|;
    assert |handlers.Keys - todo| == |handlers.Keys| - |todo|;
  }

  lemma TodoShrinks(subs: map<string, nat>, handlers: map<string, HandlerId>, todo: set<string>, topic: string, id: nat)
    requires subs.Keys == handlers.Keys - todo && topic in todo && todo <= handlers.Keys
    ensures subs[topic := id].Keys == handlers.Keys - (todo - {topic}) && todo - {topic} <= handlers.Keys
  {
  }

  lemma InstallingStep(before: map<nat, Subscription>, live: map<nat, Subscription>, subs: map<string, nat>,
                       handlers: map<string, HandlerId>, todo: set<string>,
                       first: nat, calls: nat, firstId: nat, ids: nat, topic: string,
                       calls': nat, ids': nat)
    requires calls' == calls + 1 && ids' == ids + 1
    requires topic in handlers && topic in todo && ids !in live
    requires Installing(before, live, subs, handlers, todo, first, calls, firstId, ids)
    ensures Installing(before, live[ids := Subscription(topic, handlers[topic])], subs[topic := ids], handlers,
                       todo - {topic}, first, calls', firstId, ids')
    ensures |subs[topic := ids]| == |subs| + 1
  {
    hide Installed, Consecutive;
    assert subs.Keys == handlers.Keys - todo && topic !in subs.Keys;
    InstallOneMore(before, live, subs, handlers, topic, ids);
    ConsecutiveOneMore(subs, firstId, |subs|, topic, ids);
    TodoShrinks(subs, handlers, todo, topic, ids);
  }

  class ConsumerGroup {
    const broker: Broker
    var subscriptions: map<string, nat>
    var handlers: map<string, HandlerId>
    var running: bool

    /** A group that is not running holds no subscriptions. */
    ghost predicate Valid()
      reads this, broker
    {
      broker.Valid() && (!running ==> subscriptions == map[])
    }

    constructor (broker: Broker)
      requires broker.Valid()
      ensures Valid() && !running && handlers == map[] && this.broker == broker
    {
      this.broker := broker;
      subscriptions, handlers, running := map[], map[], false;
    }

    method Add(topic: string, handler: HandlerId)
      requires Valid()
      modifies this`handlers
      ensures Valid() && handlers == old(handlers)[topic := handler]
    {
      handlers := handlers[topic := handler];
    }

    /** Subscribe to every topic, in whatever order the map yields them; on the first failure
        unsubscribe what was subscribed. It succeeds exactly when no Subscribe it makes is refused. When
        the one after `|made|` others is, what stays live is what was and those of `made` whose
        unsubscribe fails: it is all or nothing exactly when the broker fails none of the unsubscribes
        of the next `|made|` ids. */
    method Start() returns (err: Error, ghost made: map<string, nat>)
      requires Valid()
      modifies this, broker
      ensures Valid() && handlers == old(handlers)
      ensures old(running) ==> !err.Nil? && running && subscriptions == old(subscriptions)
                               && broker.registry == old(broker.registry)
      ensures !old(running) ==> running == err.Nil?
      ensures !old(running) ==>
                (err.Nil? <==> Accepts(broker.subFault, old(broker.registry).connected,
                                       old(broker.subCalls), |handlers|))
      ensures !old(running) && err.Nil? ==>
                && subscriptions == made && made.Keys == handlers.Keys
                && Installed(Live(old(broker.registry)), Live(broker.registry), made, handlers)
      ensures !old(running) && !err.Nil? ==>
                && Refused(broker.subFault, old(broker.registry).connected, old(broker.subCalls), |made|)
                && Installed(Live(old(broker.registry)), Live(broker.registry),
                             Stuck(made, broker.unsubFault), handlers)
                && (Live(broker.registry) == Live(old(broker.registry))
                    <==> Removes(broker.unsubFault, |old(broker.registry).handles|, |made|))
    {
      hide Broker.Valid, Live, Installed, Accepts, Stuck, Removes, Refused;
      made := map[];
      if running {
        return Sentinel(100), made;
      }
      err := SubscribeAll();
      made := subscriptions;
      if !err.Nil? {
        ConsecutiveRemovable(made, broker.unsubFault, |old(broker.registry).handles|, |made|);
        Rollback(old(Live(broker.registry)));
        return Wrapped(101, err), made;
      }
      running := true;
    }

    /** Start's loop, up to its first failure. */
    method SubscribeAll() returns (err: Error)
      requires broker.Valid() && subscriptions == map[]
      modifies this`subscriptions, broker
      ensures broker.Valid()
      ensures Installed(Live(old(broker.registry)), Live(broker.registry), subscriptions, handlers)
      ensures Consecutive(subscriptions, |old(broker.registry).handles|, |subscriptions|)
      ensures err.Nil? <==> Accepts(broker.subFault, old(broker.registry).connected,
                                    old(broker.subCalls), |handlers|)
      ensures err.Nil? ==> subscriptions.Keys == handlers.Keys
      ensures !err.Nil? ==> Refused(broker.subFault, old(broker.registry).connected,
                                    old(broker.subCalls), |subscriptions|)
    {
      ghost var before, calls, firstId := Live(broker.registry), broker.subCalls, |broker.registry.handles|;
      hide *;
      InstallingStarts(before, handlers, calls, firstId);
      AcceptsNone(broker.subFault, broker.registry.connected, calls);
      var todo := handlers.Keys;
      ghost var n := 0;
      while todo != {}
        invariant broker.Valid() && broker.registry.connected == old(broker.registry.connected)
        invariant Installing(before, Live(broker.registry), subscriptions, handlers, todo,
                             calls, broker.subCalls, firstId, |broker.registry.handles|)
        invariant n == |subscriptions| && Accepts(broker.subFault, broker.registry.connected, calls, n)
        decreases todo
      {
        var topic :| topic in todo;
        ghost var live, served, ids := Live(broker.registry), broker.subCalls, |broker.registry.handles|;
        InstallingNow(before, live, subscriptions, handlers, todo, calls, served, firstId, ids);
        ghost var next := n + 1;
        AcceptsOneMore(broker.subFault, broker.registry.connected, calls, n, next, |handlers|, served);
        var e, id := broker.Subscribe(topic, handlers[topic]);
        if !e.Nil? {
          return e;
        }
        InstallingStep(before, live, subscriptions, handlers, todo, calls, served, firstId, ids, topic,
                       broker.subCalls, |broker.registry.handles|);
        subscriptions := subscriptions[topic := id];
        todo, n := todo - {topic}, next;
      }
      InstallingNow(before, Live(broker.registry), subscriptions, handlers, todo, calls, broker.subCalls,
                    firstId, |broker.registry.handles|);
      err := Nil;
    }

    /** The clean-up of a failed Start. */
    method Rollback(ghost before: map<nat, Subscription>)
      requires broker.Valid() && Installed(before, Live(broker.registry), subscriptions, handlers)
      modifies this`subscriptions, broker`registry
      ensures broker.Valid() && subscriptions == map[]
      ensures Installed(before, Live(broker.registry), Stuck(old(subscriptions), broker.unsubFault), handlers)
      ensures Live(broker.registry) == before <==> AllRemovable(old(subscriptions), broker.unsubFault)
    {
      hide Broker.Valid, Live, Installed, Stuck;
      RollbackLeaves(before, Live(broker.registry), subscriptions, handlers, broker.unsubFault);
      var _ := UnsubscribeAll();
      subscriptions := map[];
    }

    /** Unsubscribe every handle of the group, going on after failures. */
    method UnsubscribeAll() returns (errs: seq<Error>)
      requires broker.Valid()
      modifies broker`registry
      ensures broker.Valid() && broker.registry.connected == old(broker.registry.connected)
      ensures Live(broker.registry) == Live(old(broker.registry)) - Removable(subscriptions, broker.unsubFault)
      ensures errs == [] <==> AllRemovable(subscriptions, broker.unsubFault)
    {
      errs := [];
      ghost var before := Live(broker.registry);
      RemovingStarts(before, subscriptions, broker.unsubFault);
      hide *;
      var todo := subscriptions.Keys;
      while todo != {}
        invariant broker.Valid() && broker.registry.connected == old(broker.registry.connected)
        invariant Removing(before, Live(broker.registry), subscriptions, todo, errs == [], broker.unsubFault)
        decreases todo
      {
        var topic :| topic in todo;
        RemovingStep(before, Live(broker.registry), subscriptions, todo, errs == [], broker.unsubFault, topic);
        var e := broker.UnsubscribeHandle(subscriptions[topic]);
        if !e.Nil? {
          errs := errs + [Wrapped(102, e)];
        }
        todo := todo - {topic};
      }
      RemovingEnds(before, Live(broker.registry), subscriptions, errs == [], broker.unsubFault);
    }

    /** Stop removes exactly the group's own subscriptions and forgets them, even those whose
        unsubscribe failed; the error is nil exactly when none failed. */
    method Stop() returns (err: Error)
      requires Valid()
      modifies this, broker
      ensures Valid() && !running && subscriptions == map[] && handlers == old(handlers)
      ensures Live(broker.registry) == Live(old(broker.registry)) - Removable(old(subscriptions), broker.unsubFault)
      ensures err.Nil? <==> AllRemovable(old(subscriptions), broker.unsubFault)
    {
      hide Broker.Valid, Live;
      if !running {
        assert Removable(subscriptions, broker.unsubFault) == {};
        return Nil;
      }
      running := false;
      var errs := UnsubscribeAll();
      subscriptions := map[];
      err := if errs == [] then Nil else Multi(103, errs);
    }
  }

  /** Start followed by Stop, with no failing unsubscribe, leaves the broker's live set as it was,
      whether or not Start succeeded. */
  method StartThenStop(group: ConsumerGroup) returns (err: Error)
    requires group.Valid() && !group.running
    requires forall id :: group.broker.unsubFault(id).Nil?
    modifies group, group.broker
    ensures group.Valid() && !group.running
    ensures Live(group.broker.registry) == Live(old(group.broker.registry))
  {
    hide Broker.Valid, Live;
    ghost var before := Live(group.broker.registry);
    ghost var made;
    err, made := group.Start();
    ghost var mid := Live(group.broker.registry);
    ghost var subs := group.subscriptions;
    var e := group.Stop();
    if err.Nil? {
      RollbackLeaves(before, mid, subs, group.handlers, group.broker.unsubFault);
    } else {
      assert Removable(subs, group.broker.unsubFault) == {};
    }
  }

  function RefuseSecond(): nat -> Error { k => if k == 1 then ErrNotConnected else Nil }

  function RefuseAll(): nat -> Error { id => ErrNotConnected }

  lemma SecondIsRefused(subFault: nat -> Error, unsubFault: nat -> Error, connected: bool,
                        from: nat, first: nat, all: nat, n: nat)
    requires subFault == RefuseSecond() && unsubFault == RefuseAll() && connected
    requires from == 0 && first == 0 && all == 2
    ensures !Accepts(subFault, connected, from, all)
    ensures Refused(subFault, connected, from, n) ==> !Removes(unsubFault, first, n)
  {
    assert Accepted(subFault, true, 0) && !Accepted(subFault, true, 1);
    if n > 0 {
      assert !unsubFault(0).Nil?;
    }
  }

  lemma NothingLiveAtFirst()
    ensures Live(EMPTY) == map[] && EMPTY.handles == []
  {
  }

  /** A failed Start is not always all or nothing: the second Subscribe is refused, the clean-up's only
      unsubscribe fails, and the first subscription stays live in a group that knows nothing of it. */
  method FailedStartCanLeaveSubscription(first: string, second: string, handler: HandlerId)
    returns (group: ConsumerGroup, err: Error)
    requires first != second
    ensures !err.Nil? && !group.running && group.subscriptions == map[]
    ensures Live(group.broker.registry) != map[]
  {
    hide Broker.Valid, Live, Accepts, Refused, Removes, Installed, Stuck, RefuseSecond, RefuseAll;
    var broker := new Broker(RefuseSecond(), RefuseAll());
    NothingLiveAtFirst();
    broker.Connect();
    group := TwoTopics(broker, first, second, handler);
    ghost var connected, calls, ids := broker.registry.connected, broker.subCalls, |broker.registry.handles|;
    ghost var made;
    err, made := group.Start();
    SecondIsRefused(broker.subFault, broker.unsubFault, connected, calls, ids, |group.handlers|, |made|);
  }

  method TwoTopics(broker: Broker, first: string, second: string, handler: HandlerId) returns (group: ConsumerGroup)
    requires broker.Valid() && first != second
    ensures fresh(group) && group.broker == broker && group.Valid() && !group.running && |group.handlers| == 2
  {
    group := new ConsumerGroup(broker);
    group.Add(first, handler);
    group.Add(second, handler);
  }
}
