/** Everybody outside the broker: publishers and handlers, who may write to any object they can
    reach, while the broker's operations go on. Whatever they do, a queued message keeps saying what
    was published, and so does a delivered copy until its own handler writes. */
module Sessions {
  import opened Errors
  import opened Messages
  import opened InMemory
  import R = Registry

  /** One mutation by client code. */
  datatype Write =
    | PutByte(a: array<byte>, i: nat, b: byte)
    | PutHeader(h: HeaderMap, name: string, text: string)
    | SetKey(m: Message, a: array<byte>)
    | SetValue(m: Message, a: array<byte>)
    | SetHeaders(m: Message, h: HeaderMap)
    | SetTopic(m: Message, topic: string)

  function Target(w: Write): object {
    match w
    case PutByte(a, _, _) => a
    case PutHeader(h, _, _) => h
    case SetKey(m, _) => m
    case SetValue(m, _) => m
    case SetHeaders(m, _) => m
    case SetTopic(m, _) => m
  }

  /** All objects a write mentions. */
  function Mentioned(w: Write): set<object> {
    match w
    case PutByte(a, _, _) => {a}
    case PutHeader(h, _, _) => {h}
    case SetKey(m, a) => {m, a}
    case SetValue(m, a) => {m, a}
    case SetHeaders(m, h) => {m, h}
    case SetTopic(m, _) => {m}
  }

  /** The write has happened, and nothing else to its target. */
  twostate predicate Happened(w: Write)
    requires w.PutByte? ==> w.i < w.a.Length
    reads Target(w)
  {
    match w
    case PutByte(a, i, b) => a[..] == old(a[..])[i := b]
    case PutHeader(h, name, text) => h.entries == old(h.entries)[name := text]
    case SetKey(m, a) => Fields(m) == old(Fields(m)).(key := a)
    case SetValue(m, a) => Fields(m) == old(Fields(m)).(value := a)
    case SetHeaders(m, h) => Fields(m) == old(Fields(m)).(headers := h)
    case SetTopic(m, topic) => Fields(m) == old(Fields(m)).(topic := topic)
  }

  datatype MessageFields = MessageFields(id: string, topic: string, key: array?<byte>, value: array?<byte>,
                                         headers: HeaderMap?, timestamp: int)

  ghost function Fields(m: Message): MessageFields
    reads m
  {
    MessageFields(m.id, m.topic, m.key, m.value, m.headers, m.timestamp)
  }

  /** A message handed to a handler, and what was published. */
  datatype Copy = Copy(msg: Message, content: Content)

  /** A goroutine outside the broker, a publisher or a handler (running or still to run): all it can
      reach, the copies it was handed, and whether it has written to anything. */
  datatype Client = Client(reach: set<object>, copies: seq<Copy>, wrote: bool)

  const NEWCOMER := Client({}, [], false)

  /** Client code holds messages with all their parts. */
  ghost predicate Closed(reach: set<object>)
    reads reach
  {
    forall o :: o in reach && o is Message ==> (o as Message).Footprint() <= reach
  }

  /** Until the client writes, its copies say what was published. */
  ghost predicate Sound(c: Client)
    reads c.reach
  {
    && Closed(c.reach)
    && forall k :: 0 <= k < |c.copies| ==>
         && c.copies[k].msg in c.reach
         && c.copies[k].msg.Footprint() <= c.reach
         && (!c.wrote ==> c.copies[k].msg.View() == c.copies[k].content)
  }

  /** No client reaches anything private, or anything another client reaches. */
  ghost predicate Separate(clients: seq<Client>, private: set<object>) {
    && (forall i :: 0 <= i < |clients| ==> clients[i].reach !! private)
    && (forall i, j :: 0 <= i < j < |clients| ==> clients[i].reach !! clients[j].reach)
  }

  ghost function Reached(clients: seq<Client>): set<object> {
    set i, o | 0 <= i < |clients| && o in clients[i].reach :: o
  }

  class Session {
    const broker: InMemoryBroker
    ghost var clients: seq<Client>

    /** What clients must not reach: the broker, its handles and what its queues own. */
    ghost function Private(): set<object>
      reads this, broker
    {
      {this as object, broker as object} + broker.Repr
      + (set i | 0 <= i < |broker.issued| :: broker.issued[i] as object)
    }

    ghost predicate Valid()
      reads this, broker, broker.Repr, broker.issued, Reached(clients)
    {
      && broker.Valid() && this !in broker.Repr
      && Separate(clients, Private())
      && forall i :: 0 <= i < |clients| ==> Sound(clients[i])
    }

    constructor (broker: InMemoryBroker)
      requires broker.Valid()
      ensures Valid() && clients == [] && this.broker == broker
    {
      this.broker := broker;
      clients := [];
    }

    // ---------------------------------------------------------- what clients do

    /** A new publisher, knowing nothing. */
    ghost method Arrive()
      requires Valid()
      modifies this`clients
      ensures Valid() && clients == old(clients) + [NEWCOMER]
    {
      hide InMemoryBroker.Valid;
      clients := clients + [NEWCOMER];
    }

    method NewBytes(ghost i: nat, n: nat) returns (a: array<byte>)
      requires Valid() && i < |clients|
      modifies this`clients
      ensures Valid() && fresh(a) && a.Length == n
      ensures clients == old(clients)[i := old(clients)[i].(reach := old(clients)[i].reach + {a})]
    {
      hide InMemoryBroker.Valid;
      a := new byte[n];
      clients := clients[i := clients[i].(reach := clients[i].reach + {a})];
    }

    /** A client makes a message around bytes it knows. */
    method NewMessage(ghost i: nat, id: string, topic: string, value: array<byte>, now: int) returns (m: Message)
      requires Valid() && i < |clients| && value in clients[i].reach
      modifies this`clients
      ensures Valid() && fresh(m)
      ensures clients == old(clients)[i := old(clients)[i].(reach := old(clients)[i].reach + m.Footprint())]
    {
      hide InMemoryBroker.Valid;
      m := new Message(id, topic, value, now);
      clients := clients[i := clients[i].(reach := clients[i].reach + m.Footprint())];
    }

    /** Two clients start sharing memory: from here on they count as one. */
    ghost method Share(i: nat, j: nat)
      requires Valid() && i < |clients| && j < |clients| && i != j
      modifies this`clients
      ensures Valid() && clients == old(clients)[i := Merged(old(clients)[i], old(clients)[j])][j := NEWCOMER]
    {
      hide InMemoryBroker.Valid;
      clients := clients[i := Merged(clients[i], clients[j])][j := NEWCOMER];
    }

    /** A client writes to anything it can reach: that object changes, but no queued message does, and
        nothing any other client can reach. */
    method Perform(ghost i: nat, w: Write)
      requires Valid() && i < |clients| && Mentioned(w) <= clients[i].reach
      requires w.PutByte? ==> w.i < w.a.Length
      modifies Target(w), this`clients
      ensures match w
              case PutByte(a, k, b) => a[..] == old(a[..])[k := b]
              case PutHeader(h, name, text) => h.entries == old(h.entries)[name := text]
              case SetKey(m, a) => m.key == a
              case SetValue(m, a) => m.value == a
              case SetHeaders(m, h) => m.headers == h
              case SetTopic(m, topic) => m.topic == topic
      ensures Valid() && clients == old(clients)[i := old(clients)[i].(wrote := true)] && Happened(w)
      ensures broker.contents == old(broker.contents) && broker.queues == old(broker.queues)
      ensures forall t, k :: At(broker.queues, t, k) ==>
                broker.queues[t][k].View() == old(broker.queues[t][k].View())
      ensures forall j, o :: 0 <= j < |clients| && j != i && o in clients[j].reach && o is Message ==>
                (o as Message).View() == old((o as Message).View())
    {
      hide InMemoryBroker.Valid;
      QueuesOwn(broker);
      OthersOwn(i, w);
      hide Sound, Separate, Closed;
      MarkWrote(i);
      Mutate(i, w);
    }

    ghost method MarkWrote(i: nat)
      requires Valid() && i < |clients|
      modifies this`clients
      ensures Valid() && clients == old(clients)[i := old(clients)[i].(wrote := true)]
    {
      hide InMemoryBroker.Valid;
      clients := clients[i := clients[i].(wrote := true)];
    }

    method Mutate(ghost i: nat, w: Write)
      requires Valid() && i < |clients| && clients[i].wrote && Mentioned(w) <= clients[i].reach
      requires w.PutByte? ==> w.i < w.a.Length
      modifies Target(w)
      ensures Valid() && clients == old(clients) && Happened(w)
      ensures broker.contents == old(broker.contents) && broker.queues == old(broker.queues)
    {
      hide InMemoryBroker.Valid;
      Do(w, clients[i].reach);
    }

    /** What any other client can reach does not contain the target of this client's write. */
    lemma OthersOwn(i: nat, w: Write)
      requires Valid() && i < |clients| && Mentioned(w) <= clients[i].reach
      ensures forall j, o :: 0 <= j < |clients| && j != i && o in clients[j].reach && o is Message ==>
                Target(w) !in (o as Message).Footprint()
    {
      forall j, o | 0 <= j < |clients| && j != i && o in clients[j].reach && o is Message
        ensures Target(w) !in (o as Message).Footprint()
      {
        assert Sound(clients[j]) && Target(w) in clients[i].reach;
      }
    }

    // ------------------------------------------------------ what the broker does

    method Connect()
      requires Valid()
      modifies broker`connected, broker`ops
      ensures Valid() && broker.ops == old(broker.ops) + [R.Connect]
    {
      hide InMemoryBroker.Valid;
      broker.Connect();
    }

    method Close() returns (panicked: bool)
      requires Valid()
      modifies broker
      ensures Valid() && broker.ops == old(broker.ops) + [R.Close]
    {
      hide InMemoryBroker.Valid;
      panicked := broker.Close();
    }

    method Subscribe(topic: string, handler: R.HandlerId) returns (err: Error, sub: InMemorySub?)
      requires Valid()
      modifies broker
      ensures Valid() && broker.ops == old(broker.ops) + [R.Subscribe(topic, handler)]
      ensures err.Nil? ==> sub != null && sub in broker.issued
    {
      hide InMemoryBroker.Valid;
      err, sub := broker.Subscribe(topic, handler);
    }

    method UnsubscribeTopic(topic: string)
      requires Valid()
      modifies broker
      ensures Valid() && broker.ops == old(broker.ops) + [R.UnsubscribeTopic(topic)]
    {
      hide InMemoryBroker.Valid;
      broker.Unsubscribe(topic);
    }

    method UnsubscribeHandle(sub: InMemorySub)
      requires Valid() && sub.id < |broker.issued| && broker.issued[sub.id] == sub && sub.broker == broker
      modifies broker, sub
      ensures Valid() && broker.ops == old(broker.ops) + [R.UnsubscribeHandle(sub.id)]
    {
      hide InMemoryBroker.Valid;
      sub.Unsubscribe();
    }

    /** A client publishes a message it knows. Every goroutine this spawns is a new client that
        reaches its own copy and nothing else; nobody comes to reach the queued copy. */
    method Publish(ghost i: nat, topic: string, msg: Message, now: int, ghost tag: R.Msg)
      returns (err: Error, spawned: seq<Spawn>)
      requires Valid() && i < |clients| && msg in clients[i].reach
      modifies this`clients, broker
      ensures Valid() && broker.ops == old(broker.ops) + [R.Publish(topic, tag)]
      ensures err.Nil? <==> old(broker.connected)
      ensures err.Nil? ==>
                && broker.contents == old(broker.contents)[topic :=
                     AtOrEmpty(old(broker.contents), topic) + [Stamp(old(msg.View()), topic, now)]]
                && Delivered(spawned, R.Deliveries(R.Subs(old(broker.View()), topic), tag),
                             Stamp(old(msg.View()), topic, now))
      ensures !err.Nil? ==> broker.contents == old(broker.contents) && spawned == []
      ensures clients == old(clients) + Recipients(spawned, Stamp(old(msg.View()), topic, now))
      ensures forall k :: 0 <= k < |spawned| ==>
                clients[|old(clients)| + k] == Client(spawned[k].msg.Footprint(),
                                                      [Copy(spawned[k].msg, Stamp(old(msg.View()), topic, now))], false)
    {
      hide InMemoryBroker.Valid, R.Deliveries, R.Subs, Delivered, Stamp, AtOrEmpty;
      hide Sound, Separate, Apart, Recruitable, Recipients;
      ghost var said := Stamp(msg.View(), topic, now);
      err, spawned := Forward(i, topic, msg, now, tag);
      Recruit(spawned, said);
    }

    /** The broker's part of it. */
    method Forward(ghost i: nat, topic: string, msg: Message, now: int, ghost tag: R.Msg)
      returns (err: Error, spawned: seq<Spawn>)
      requires Valid() && i < |clients| && msg in clients[i].reach
      modifies broker
      ensures Valid() && broker.ops == old(broker.ops) + [R.Publish(topic, tag)]
      ensures err.Nil? <==> old(broker.connected)
      ensures err.Nil? ==>
                && broker.contents == old(broker.contents)[topic :=
                     AtOrEmpty(old(broker.contents), topic) + [Stamp(old(msg.View()), topic, now)]]
                && Delivered(spawned, R.Deliveries(R.Subs(old(broker.View()), topic), tag),
                             Stamp(old(msg.View()), topic, now))
      ensures !err.Nil? ==> broker.contents == old(broker.contents) && spawned == []
      ensures Recruitable(spawned, Stamp(old(msg.View()), topic, now))
    {
      hide InMemoryBroker.Valid, R.Deliveries, R.Subs, Delivered, Stamp, AtOrEmpty, Apart, Recruitable;
      ghost var said := Stamp(msg.View(), topic, now);
      KnowsWhole(i, msg);
      err, spawned := Hand(topic, msg, now, tag);
      FreshlyMade(spawned, said);
    }

    lemma KnowsWhole(i: nat, msg: Message)
      requires Valid() && i < |clients| && msg in clients[i].reach
      ensures msg.Footprint() !! broker.Repr
    {
      assert Sound(clients[i]) && (msg as object) in clients[i].reach;
    }

    /** `InMemoryBroker.Publish` as a step of the session. */
    method Hand(topic: string, msg: Message, now: int, ghost tag: R.Msg) returns (err: Error, spawned: seq<Spawn>)
      requires Valid() && msg.Footprint() !! broker.Repr
      modifies broker
      ensures Valid() && broker.ops == old(broker.ops) + [R.Publish(topic, tag)]
      ensures err.Nil? <==> old(broker.connected)
      ensures err.Nil? ==>
                && broker.contents == old(broker.contents)[topic :=
                     AtOrEmpty(old(broker.contents), topic) + [Stamp(old(msg.View()), topic, now)]]
                && Delivered(spawned, R.Deliveries(R.Subs(old(broker.View()), topic), tag),
                             Stamp(old(msg.View()), topic, now))
      ensures !err.Nil? ==> broker.contents == old(broker.contents) && spawned == []
      ensures Apart(spawned) && broker.issued == old(broker.issued)
      ensures forall k :: 0 <= k < |spawned| ==>
                && fresh(spawned[k].msg.Footprint()) && spawned[k].msg.Footprint() !! broker.Repr
                && spawned[k].msg.View() == Stamp(old(msg.View()), topic, now)
    {
      hide InMemoryBroker.Valid, R.Deliveries, R.Subs, Stamp, AtOrEmpty, Apart;
      err, spawned := broker.Publish(topic, msg, now, tag);
    }

    /** Copies made just now are unknown to everybody. */
    twostate lemma FreshlyMade(new spawned: seq<Spawn>, said: Content)
      requires clients == old(clients) && broker.issued == old(broker.issued) && Apart(spawned)
      requires forall k :: 0 <= k < |spawned| ==>
                 && fresh(spawned[k].msg.Footprint()) && spawned[k].msg.Footprint() !! broker.Repr
                 && spawned[k].msg.View() == said
      ensures Recruitable(spawned, said)
    {
      hide Apart;
    }

    /** Nobody else has any part of the copies. */
    ghost predicate Recruitable(spawned: seq<Spawn>, said: Content)
      reads this, broker, set k | 0 <= k < |spawned| :: spawned[k].msg,
            set k | 0 <= k < |spawned| :: spawned[k].msg.key,
            set k | 0 <= k < |spawned| :: spawned[k].msg.value,
            set k | 0 <= k < |spawned| :: spawned[k].msg.headers
    {
      && Apart(spawned)
      && forall k :: 0 <= k < |spawned| ==>
           && spawned[k].msg.Footprint() !! Private()
           && spawned[k].msg.View() == said
           && forall i :: 0 <= i < |clients| ==> clients[i].reach !! spawned[k].msg.Footprint()
    }

    /** Spawned goroutines become clients. */
    ghost method Recruit(spawned: seq<Spawn>, said: Content)
      requires Valid() && Recruitable(spawned, said)
      modifies this`clients
      ensures Valid() && clients == old(clients) + Recipients(spawned, said)
    {
      hide InMemoryBroker.Valid, Separate, Sound;
      Recruits(clients, Private(), spawned, said);
      clients := clients + Recipients(spawned, said);
    }
  }

  /** The mutation itself. */
  method Do(w: Write, ghost reach: set<object>)
    requires Closed(reach) && Mentioned(w) <= reach
    requires w.PutByte? ==> w.i < w.a.Length
    modifies Target(w)
    ensures Closed(reach) && Happened(w)
  {
    match w
    case PutByte(a, i, b) => a[i] := b;
    case PutHeader(h, name, text) => h.entries := h.entries[name := text];
    case SetKey(m, a) => m.key := a;
    case SetValue(m, a) => m.value := a;
    case SetHeaders(m, h) => m.headers := h;
    case SetTopic(m, topic) => m.topic := topic;
  }

  function Merged(a: Client, b: Client): Client { Client(a.reach + b.reach, a.copies + b.copies, a.wrote || b.wrote) }

  /** A goroutine just spawned. */
  ghost function Recipient(s: Spawn, said: Content): Client
    reads s.msg
  {
    Client(s.msg.Footprint(), [Copy(s.msg, said)], false)
  }

  ghost function Recipients(spawned: seq<Spawn>, said: Content): (r: seq<Client>)
    reads set k | 0 <= k < |spawned| :: spawned[k].msg
    ensures |r| == |spawned|
    ensures forall k :: 0 <= k < |spawned| ==> r[k] == Recipient(spawned[k], said)
  {
    if spawned == [] then []
    else Recipients(spawned[..|spawned| - 1], said) + [Recipient(spawned[|spawned| - 1], said)]
  }

  /** Spawned goroutines with copies nobody else has are sound clients, separate from all others. */
  lemma Recruits(clients: seq<Client>, private: set<object>, spawned: seq<Spawn>, said: Content)
    requires Separate(clients, private) && Apart(spawned)
    requires forall k :: 0 <= k < |spawned| ==>
               && spawned[k].msg.Footprint() !! private && spawned[k].msg.View() == said
               && forall i :: 0 <= i < |clients| ==> clients[i].reach !! spawned[k].msg.Footprint()
    ensures var all := clients + Recipients(spawned, said);
            && Separate(all, private)
            && (forall k :: |clients| <= k < |all| ==> Sound(all[k]))
  {
    var all := clients + Recipients(spawned, said);
    forall k | |clients| <= k < |all| ensures all[k] == Recipient(spawned[k - |clients|], said) {
    }
  }

  lemma QueuesOwn(b: InMemoryBroker)
    requires b.Valid()
    ensures Owned(b.queues, b.Repr)
  {
  }

  /** In every state a session reaches, each queued message still says what was published, and no
      client can reach any part of it. */
  lemma QueuedMessagesSayWhatWasPublished(s: Session, t: string, k: nat)
    requires s.Valid() && At(s.broker.queues, t, k)
    ensures t in s.broker.contents && k < |s.broker.contents[t]|
    ensures s.broker.queues[t][k].View() == s.broker.contents[t][k]
    ensures forall i :: 0 <= i < |s.clients| ==> s.broker.queues[t][k].Footprint() !! s.clients[i].reach
  {
    assert Isolated(s.broker.queues, s.broker.contents, s.broker.Repr);
  }

  /** So does each delivered copy until the client it was delivered to writes; no other client can
      reach any part of it, and no queued message shares one. */
  lemma DeliveredCopiesSayWhatWasPublished(s: Session, i: nat, k: nat)
    requires s.Valid() && i < |s.clients| && k < |s.clients[i].copies|
    ensures var copy := s.clients[i].copies[k];
            && (!s.clients[i].wrote ==> copy.msg.View() == copy.content)
            && (forall j :: 0 <= j < |s.clients| && j != i ==> copy.msg.Footprint() !! s.clients[j].reach)
            && (forall t, n :: At(s.broker.queues, t, n) ==> copy.msg.Footprint() !! s.broker.queues[t][n].Footprint())
  {
    var c := s.clients[i];
    assert Sound(c) && c.copies[k].msg.Footprint() <= c.reach;
    assert Isolated(s.broker.queues, s.broker.contents, s.broker.Repr);
  }
}
